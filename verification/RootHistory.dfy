/**
 The ring of recent roots: which prefixes of the deposit sequence a stale client may still
 prove against, and the proof that the window is exactly the ring's size.
 */
module RootHistory {
  import opened MerkleTree

  const ROOT_HISTORY_SIZE: nat := 256

  /** Number of deposits behind the root in a slot once n deposits have been made. */
  function Occupant(n: nat, slot: nat): (m: nat)
    ensures m <= n
  {
    if slot > n then 0 else n - (n - slot) % ROOT_HISTORY_SIZE
  }

  /** The ring holds, slot by slot, the roots of the prefixes it should. */
  ghost predicate HistoryOf(h: Hash, depth: nat, leaves: seq<Word>, history: seq<Word>) {
    && |history| == ROOT_HISTORY_SIZE
    && forall s {:trigger history[s]} :: 0 <= s < ROOT_HISTORY_SIZE ==>
         history[s] == TreeRoot(h, depth, leaves[..Occupant(|leaves|, s)])
  }

  lemma Remainder(x: int, q: int, r: int)
    requires x == ROOT_HISTORY_SIZE * q + r && 0 <= r < ROOT_HISTORY_SIZE
    ensures x % ROOT_HISTORY_SIZE == r
  {
  }

  lemma RemainderNext(x: int)
    ensures (x + 1) % ROOT_HISTORY_SIZE ==
      (if x % ROOT_HISTORY_SIZE == ROOT_HISTORY_SIZE - 1 then 0 else x % ROOT_HISTORY_SIZE + 1)
  {
    var q, r := x / ROOT_HISTORY_SIZE, x % ROOT_HISTORY_SIZE;
    if r == ROOT_HISTORY_SIZE - 1 { Remainder(x + 1, q + 1, 0); } else { Remainder(x + 1, q, r + 1); }
  }

  lemma SlotOf(n: int, s: int)
    requires 0 <= s < ROOT_HISTORY_SIZE
    ensures s == n % ROOT_HISTORY_SIZE <==> (n - s) % ROOT_HISTORY_SIZE == 0
  {
    if s == n % ROOT_HISTORY_SIZE { Remainder(n - s, n / ROOT_HISTORY_SIZE, 0); }
    if (n - s) % ROOT_HISTORY_SIZE == 0 { Remainder(n, (n - s) / ROOT_HISTORY_SIZE, s); }
  }

  lemma OccupantNext(n: nat, s: nat)
    requires s < ROOT_HISTORY_SIZE
    ensures Occupant(n + 1, s) == if s == (n + 1) % ROOT_HISTORY_SIZE then n + 1 else Occupant(n, s)
  {
    SlotOf(n + 1, s);
    RemainderNext(n - s);
  }

  /** Pushing the new root into the slot after the current one keeps the ring right. */
  lemma PushKeepsHistory(h: Hash, depth: nat, leaves: seq<Word>, leaf: Word, history: seq<Word>)
    requires HistoryOf(h, depth, leaves, history)
    ensures HistoryOf(h, depth, leaves + [leaf],
      history[(|leaves| + 1) % ROOT_HISTORY_SIZE := TreeRoot(h, depth, leaves + [leaf])])
  {
    var n, after := |leaves|, leaves + [leaf];
    var pushed := history[(n + 1) % ROOT_HISTORY_SIZE := TreeRoot(h, depth, after)];
    forall s | 0 <= s < ROOT_HISTORY_SIZE
      ensures pushed[s] == TreeRoot(h, depth, after[..Occupant(|after|, s)])
    {
      OccupantNext(n, s);
      assert after[..n + 1] == after;
      assert after[..Occupant(n, s)] == leaves[..Occupant(n, s)];
    }
  }

  /** A prefix is in the ring when at most 255 deposits came after it. */
  predicate InWindow(n: nat, m: nat) {
    m <= n && n - m < ROOT_HISTORY_SIZE
  }

  lemma OccupantInWindow(n: nat, s: nat)
    requires s < ROOT_HISTORY_SIZE
    ensures InWindow(n, Occupant(n, s))
  {
  }

  /** Every recent prefix is accepted, across any number of turns of the ring. */
  lemma RecentRootKnown(h: Hash, depth: nat, leaves: seq<Word>, history: seq<Word>, m: nat)
    requires HistoryOf(h, depth, leaves, history) && InWindow(|leaves|, m)
    ensures TreeRoot(h, depth, leaves[..m]) in history
  {
    var s := m % ROOT_HISTORY_SIZE;
    assert Occupant(|leaves|, s) == m;
    assert history[s] == TreeRoot(h, depth, leaves[..m]);
  }

  /** Building the trees of two prefixes never hashed two different pairs to one word. */
  ghost predicate PrefixesCollisionFree(h: Hash, depth: nat, leaves: seq<Word>) {
    forall a, b, k :: 0 <= a <= b <= |leaves| && 0 <= k ==> !CollisionAbove(h, leaves[..a], leaves[..b], depth, k)
  }

  ghost predicate Distinct(leaves: seq<Word>) {
    forall i, j :: 0 <= i < j < |leaves| ==> leaves[i] != leaves[j]
  }

  /** Two prefixes have the same root only if every deposit between them is the empty-leaf value. */
  lemma EqualRootsMeanEmptyLeaves(h: Hash, depth: nat, leaves: seq<Word>, a: nat, b: nat, k: nat)
    requires a <= k < b <= |leaves| <= Pow2(depth) && PrefixesCollisionFree(h, depth, leaves)
    requires TreeRoot(h, depth, leaves[..a]) == TreeRoot(h, depth, leaves[..b])
    ensures leaves[k] == ZERO_VALUE
  {
    AboveBound(k, depth, 1);
    RootBinds(h, leaves[..a], leaves[..b], depth, k);
  }

  /** A deposit of the empty-leaf value leaves the root as it was. */
  lemma {:induction false} ZeroDepositKeepsNodes(h: Hash, leaves: seq<Word>, m: nat, level: nat, k: nat)
    requires m < |leaves| && leaves[m] == ZERO_VALUE
    ensures Node(h, leaves[..m + 1], level, k) == Node(h, leaves[..m], level, k)
  {
    if level == 0 {
    } else {
      ZeroDepositKeepsNodes(h, leaves, m, level - 1, 2 * k);
      ZeroDepositKeepsNodes(h, leaves, m, level - 1, 2 * k + 1);
    }
  }

  /**
   The staleness window, exactly. With distinct commitments and no hash collision, the root of
   the first m deposits is known if and only if at most 255 deposits followed it, or exactly 256
   did and the first of them was the empty-leaf value, which the deposit handler does not reject.
   */
  lemma WindowExact(h: Hash, depth: nat, leaves: seq<Word>, history: seq<Word>, m: nat)
    requires HistoryOf(h, depth, leaves, history)
    requires m <= |leaves| <= Pow2(depth) && Distinct(leaves) && PrefixesCollisionFree(h, depth, leaves)
    ensures TreeRoot(h, depth, leaves[..m]) in history <==>
      InWindow(|leaves|, m) || (|leaves| - m == ROOT_HISTORY_SIZE && leaves[m] == ZERO_VALUE)
  {
    var n, root := |leaves|, TreeRoot(h, depth, leaves[..m]);
    if InWindow(n, m) {
      RecentRootKnown(h, depth, leaves, history, m);
    } else {
      if leaves[m] == ZERO_VALUE && n - m == ROOT_HISTORY_SIZE {
        ZeroDepositKeepsNodes(h, leaves, m, depth, 0);
        RecentRootKnown(h, depth, leaves, history, m + 1);
      }
      if root in history {
        var s :| 0 <= s < |history| && history[s] == root;
        var j := Occupant(n, s);
        OccupantInWindow(n, s);
        EqualRootsMeanEmptyLeaves(h, depth, leaves, m, j, m);
        if j > m + 1 {
          EqualRootsMeanEmptyLeaves(h, depth, leaves, m, j, m + 1);
        }
      }
    }
  }
}
