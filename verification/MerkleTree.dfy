/**
 The deposit tree twice over: every node of the zero-padded tree, and the insertion that
 touches one node per level. The second computes the root of the first.
 */
module MerkleTree {

  /** A 32-byte word of the tree, named by the integer it stands for big-endian. */
  type Word = nat

  /** Poseidon over two words, left uninterpreted. */
  type Hash = (Word, Word) -> Word

  /** Value of an empty leaf. */
  const ZERO_VALUE: Word := 0

  /** The table of zero hashes: entry i belongs to an empty subtree of height i + 1. */
  function ZeroHash(h: Hash, i: nat): Word {
    if i == 0 then h(ZERO_VALUE, ZERO_VALUE) else h(ZeroHash(h, i - 1), ZeroHash(h, i - 1))
  }

  /** The empty sibling at a level: the bare leaf value below, the table shifted by one above. */
  function ZeroSibling(h: Hash, level: nat): Word {
    if level == 0 then ZERO_VALUE else ZeroHash(h, level - 1)
  }

  function Pow2(n: nat): (p: nat)
    ensures p >= 1
  {
    if n == 0 then 1 else 2 * Pow2(n - 1)
  }

  // ---- the simple form ----

  function LeafAt(leaves: seq<Word>, k: nat): Word {
    if k < |leaves| then leaves[k] else ZERO_VALUE
  }

  /** Node k of a level of the tree over the leaves padded with empty ones. */
  function Node(h: Hash, leaves: seq<Word>, level: nat, k: nat): Word
    decreases level
  {
    if level == 0 then LeafAt(leaves, k)
    else h(Node(h, leaves, level - 1, 2 * k), Node(h, leaves, level - 1, 2 * k + 1))
  }

  /** Root of the padded tree of the given depth. */
  function TreeRoot(h: Hash, depth: nat, leaves: seq<Word>): Word {
    Node(h, leaves, depth, 0)
  }

  /** The padded leaves from a position on. */
  function Padded(leaves: seq<Word>, start: nat, n: nat): (p: seq<Word>)
    ensures |p| == n && forall i :: 0 <= i < n ==> p[i] == LeafAt(leaves, start + i)
  {
    if n == 0 then [] else Padded(leaves, start, n - 1) + [LeafAt(leaves, start + n - 1)]
  }

  lemma PaddedParts(leaves: seq<Word>, start: nat, n: nat, m: nat)
    ensures Padded(leaves, start, n + m)[..n] == Padded(leaves, start, n)
    ensures Padded(leaves, start, n + m)[n..] == Padded(leaves, start + n, m)
  {
  }

  lemma SameHalves(a: seq<Word>, s: nat, b: seq<Word>, t: nat, n: nat)
    requires Padded(a, s, 2 * n) == Padded(b, t, 2 * n)
    ensures Padded(a, s, n) == Padded(b, t, n) && Padded(a, s + n, n) == Padded(b, t + n, n)
  {
    PaddedParts(a, s, n, n);
    PaddedParts(b, t, n, n);
  }

  /** Where the two children of a node begin. */
  lemma ChildrenBegin(k: nat, level: nat)
    requires level > 0
    ensures var s, p := k * Pow2(level), Pow2(level - 1);
      Pow2(level) == 2 * p && 2 * k * p == s && (2 * k + 1) * p == s + p
  {
    var p := Pow2(level - 1);
    assert k * (2 * p) == 2 * k * p;
  }

  /** A node depends on the leaves below it, in their order, and on nothing else. */
  lemma {:induction false} SameSubtree(h: Hash, a: seq<Word>, k: nat, b: seq<Word>, m: nat, level: nat)
    requires Padded(a, k * Pow2(level), Pow2(level)) == Padded(b, m * Pow2(level), Pow2(level))
    ensures Node(h, a, level, k) == Node(h, b, level, m)
    decreases level
  {
    if level == 0 {
      OneLeaf(a, k, b, m);
    } else {
      ChildrenBegin(k, level);
      ChildrenBegin(m, level);
      SameHalves(a, k * Pow2(level), b, m * Pow2(level), Pow2(level - 1));
      SameSubtree(h, a, 2 * k, b, 2 * m, level - 1);
      SameSubtree(h, a, 2 * k + 1, b, 2 * m + 1, level - 1);
    }
  }

  lemma OneLeaf(a: seq<Word>, k: nat, b: seq<Word>, m: nat)
    requires Padded(a, k * 1, 1) == Padded(b, m * 1, 1)
    ensures LeafAt(a, k) == LeafAt(b, m)
  {
    assert Padded(a, k, 1)[0] == Padded(b, m, 1)[0];
  }

  /** From the root down: the first half of the leaves hashes on the left, and the rest, padded, on the right. */
  lemma RootOfHalves(h: Hash, depth: nat, leaves: seq<Word>)
    ensures TreeRoot(h, 0, leaves) == if |leaves| == 0 then ZERO_VALUE else leaves[0]
    ensures var n := Pow2(depth);
      TreeRoot(h, depth + 1, leaves) ==
        if |leaves| <= n then h(TreeRoot(h, depth, leaves), TreeRoot(h, depth, []))
        else h(TreeRoot(h, depth, leaves[..n]), TreeRoot(h, depth, leaves[n..]))
  {
    var n := Pow2(depth);
    var first := if |leaves| <= n then leaves else leaves[..n];
    var rest := if |leaves| <= n then [] else leaves[n..];
    assert Padded(leaves, 0 * n, n) == Padded(first, 0 * n, n);
    assert Padded(leaves, 1 * n, n) == Padded(rest, 0 * n, n);
    SameSubtree(h, leaves, 0, first, 0, depth);
    SameSubtree(h, leaves, 1, rest, 0, depth);
  }

  /** Position, at a level, of the node above leaf k. */
  function Above(k: nat, level: nat): nat {
    if level == 0 then k else Above(k, level - 1) / 2
  }

  lemma {:induction false} AboveBound(k: nat, level: nat, p: nat)
    requires k < p * Pow2(level)
    ensures Above(k, level) < p
    decreases level
  {
    if level == 0 {
    } else {
      assert p * Pow2(level) == (2 * p) * Pow2(level - 1);
      AboveBound(k, level - 1, 2 * p);
    }
  }

  lemma {:induction false} AboveNext(k: nat, level: nat)
    ensures Above(k, level) <= Above(k + 1, level) <= Above(k, level) + 1
  {
    if level == 0 {
    } else {
      AboveNext(k, level - 1);
    }
  }

  lemma {:induction false} AboveZero(level: nat)
    ensures Above(0, level) == 0
  {
    if level == 0 {
    } else {
      AboveZero(level - 1);
    }
  }

  // ---- the fast form ----

  /** What one insertion leaves behind: the new root and the stored nodes. */
  datatype Walk = Walk(root: Word, filled: seq<Word>)

  /**
   The walk of one deposit from a level to the root. An even index stores the current node
   and pairs it with the empty sibling; an odd index pairs the stored node with the current.
   */
  function InsertFrom(h: Hash, level: nat, index: nat, current: Word, filled: seq<Word>): (w: Walk)
    requires level <= |filled|
    ensures |w.filled| == |filled|
    decreases |filled| - level
  {
    if level == |filled| then
      Walk(current, filled)
    else if index % 2 == 0 then
      InsertFrom(h, level + 1, index / 2, h(current, ZeroSibling(h, level)), filled[level := current])
    else
      InsertFrom(h, level + 1, index / 2, h(filled[level], current), filled)
  }

  // ---- why they agree ----

  /** A new leaf changes only the nodes above it. */
  lemma {:induction false} NodeKept(h: Hash, leaves: seq<Word>, leaf: Word, level: nat, k: nat)
    requires k != Above(|leaves|, level)
    ensures Node(h, leaves + [leaf], level, k) == Node(h, leaves, level, k)
  {
    if level == 0 {
    } else {
      NodeKept(h, leaves, leaf, level - 1, 2 * k);
      NodeKept(h, leaves, leaf, level - 1, 2 * k + 1);
    }
  }

  /** To the right of everything deposited there are only empty subtrees, and the table lists their roots. */
  lemma {:induction false} NodeEmpty(h: Hash, leaves: seq<Word>, last: nat, level: nat, k: nat)
    requires |leaves| <= last + 1 && k > Above(last, level)
    ensures Node(h, leaves, level, k) == ZeroSibling(h, level)
  {
    if level == 0 {
    } else {
      NodeEmpty(h, leaves, last, level - 1, 2 * k);
      NodeEmpty(h, leaves, last, level - 1, 2 * k + 1);
    }
  }

  /**
   The stored nodes from a level up are usable: where the next position of a level is odd, the
   node to its left is stored. Slots of levels with an even next position may hold anything.
   */
  ghost predicate TracksFrom(h: Hash, leaves: seq<Word>, level: nat, filled: seq<Word>) {
    forall i {:trigger filled[i]} :: level <= i < |filled| && Above(|leaves|, i) % 2 == 1 ==>
      filled[i] == Node(h, leaves, i, Above(|leaves|, i) - 1)
  }

  ghost predicate Tracks(h: Hash, leaves: seq<Word>, filled: seq<Word>) {
    TracksFrom(h, leaves, 0, filled)
  }

  function SlotAfter(h: Hash, leaves: seq<Word>, leaf: Word, level: nat, i: nat, before: Word): Word {
    if level <= i && Above(|leaves|, i) % 2 == 0 then Node(h, leaves + [leaf], i, Above(|leaves|, i)) else before
  }

  /** From a level up, exactly the slots at even positions were overwritten, with the nodes above the new leaf. */
  ghost predicate StoredFrom(h: Hash, leaves: seq<Word>, leaf: Word, level: nat, before: seq<Word>, after: seq<Word>) {
    && |before| == |after|
    && forall i {:trigger after[i]} :: 0 <= i < |after| ==>
         after[i] == SlotAfter(h, leaves, leaf, level, i, before[i])
  }

  /** One step of the walk: the pair hashed at a level makes the node above it. */
  lemma ParentIsNode(h: Hash, leaves: seq<Word>, leaf: Word, level: nat, stored: Word)
    requires Above(|leaves|, level) % 2 == 1 ==> stored == Node(h, leaves, level, Above(|leaves|, level) - 1)
    ensures
      var k := Above(|leaves|, level);
      var current := Node(h, leaves + [leaf], level, k);
      Node(h, leaves + [leaf], level + 1, k / 2) ==
        (if k % 2 == 0 then h(current, ZeroSibling(h, level)) else h(stored, current))
  {
    var k := Above(|leaves|, level);
    if k % 2 == 0 {
      NodeEmpty(h, leaves + [leaf], |leaves|, level, k + 1);
    } else {
      NodeKept(h, leaves, leaf, level, k - 1);
    }
  }

  /** One insertion from any level on its way up. */
  lemma {:induction false} InsertFromCorrect(
      h: Hash, leaves: seq<Word>, leaf: Word, level: nat, index: nat, current: Word, filled: seq<Word>)
    requires level <= |filled| && |leaves| < Pow2(|filled|)
    requires index == Above(|leaves|, level) && current == Node(h, leaves + [leaf], level, index)
    requires TracksFrom(h, leaves, level, filled)
    ensures InsertFrom(h, level, index, current, filled).root == TreeRoot(h, |filled|, leaves + [leaf])
    ensures StoredFrom(h, leaves, leaf, level, filled, InsertFrom(h, level, index, current, filled).filled)
    decreases |filled| - level
  {
    if level == |filled| {
      AboveBound(|leaves|, level, 1);
    } else if index % 2 == 0 {
      var stored := filled[level := current];
      ParentIsNode(h, leaves, leaf, level, filled[level]);
      InsertFromCorrect(h, leaves, leaf, level + 1, index / 2, h(current, ZeroSibling(h, level)), stored);
    } else {
      ParentIsNode(h, leaves, leaf, level, filled[level]);
      InsertFromCorrect(h, leaves, leaf, level + 1, index / 2, h(filled[level], current), filled);
    }
  }

  /** What has to be stored at a level for the next insertion is what this one stored or left there. */
  lemma TrackedNext(h: Hash, leaves: seq<Word>, leaf: Word, i: nat, before: Word, after: Word)
    requires Above(|leaves| + 1, i) % 2 == 1
    requires Above(|leaves|, i) % 2 == 1 ==> before == Node(h, leaves, i, Above(|leaves|, i) - 1)
    requires after == SlotAfter(h, leaves, leaf, 0, i, before)
    ensures after == Node(h, leaves + [leaf], i, Above(|leaves| + 1, i) - 1)
  {
    AboveNext(|leaves|, i);
    if Above(|leaves|, i) % 2 == 1 {
      NodeKept(h, leaves, leaf, i, Above(|leaves|, i) - 1);
    }
  }

  lemma TracksNext(h: Hash, leaves: seq<Word>, leaf: Word, before: seq<Word>, after: seq<Word>)
    requires Tracks(h, leaves, before) && StoredFrom(h, leaves, leaf, 0, before, after)
    ensures Tracks(h, leaves + [leaf], after)
  {
    forall i | 0 <= i < |after| && Above(|leaves + [leaf]|, i) % 2 == 1
      ensures after[i] == Node(h, leaves + [leaf], i, Above(|leaves + [leaf]|, i) - 1)
    {
      TrackedNext(h, leaves, leaf, i, before[i], after[i]);
    }
  }

  /** One insertion keeps the stored nodes usable and returns the root of the grown tree. */
  lemma InsertCorrect(h: Hash, leaves: seq<Word>, leaf: Word, filled: seq<Word>)
    requires |leaves| < Pow2(|filled|) && Tracks(h, leaves, filled)
    ensures InsertFrom(h, 0, |leaves|, leaf, filled).root == TreeRoot(h, |filled|, leaves + [leaf])
    ensures Tracks(h, leaves + [leaf], InsertFrom(h, 0, |leaves|, leaf, filled).filled)
  {
    InsertFromCorrect(h, leaves, leaf, 0, |leaves|, leaf, filled);
    TracksNext(h, leaves, leaf, filled, InsertFrom(h, 0, |leaves|, leaf, filled).filled);
  }

  /** The stored nodes after a whole run of deposits, starting from whatever was stored. */
  function InsertAll(h: Hash, leaves: seq<Word>, filled: seq<Word>): (w: seq<Word>)
    ensures |w| == |filled|
  {
    if |leaves| == 0 then filled
    else
      var n := |leaves| - 1;
      InsertFrom(h, 0, n, leaves[n], InsertAll(h, leaves[..n], filled)).filled
  }

  /** No slot is read before it is written, so any initial contents will do. */
  lemma {:induction false} RunTracks(h: Hash, leaves: seq<Word>, filled: seq<Word>)
    requires |leaves| <= Pow2(|filled|)
    ensures Tracks(h, leaves, InsertAll(h, leaves, filled))
  {
    if |leaves| == 0 {
      forall i | 0 <= i < |filled| ensures Above(0, i) == 0 { AboveZero(i); }
    } else {
      var n := |leaves| - 1;
      RunTracks(h, leaves[..n], filled);
      InsertCorrect(h, leaves[..n], leaves[n], InsertAll(h, leaves[..n], filled));
      assert leaves[..n] + [leaves[n]] == leaves;
    }
  }

  /**
   The fast form refines the simple one: for every depth, every sequence of deposits that fits
   and whatever the stored nodes held at first, the walk of the last deposit ends in the root
   of the whole padded tree.
   */
  lemma FastRootIsTreeRoot(h: Hash, leaves: seq<Word>, leaf: Word, filled: seq<Word>)
    requires |leaves| < Pow2(|filled|)
    ensures InsertFrom(h, 0, |leaves|, leaf, InsertAll(h, leaves, filled)).root
         == TreeRoot(h, |filled|, leaves + [leaf])
  {
    RunTracks(h, leaves, filled);
    InsertCorrect(h, leaves, leaf, InsertAll(h, leaves, filled));
  }

  /** The last entry of a table as long as the tree is deep is the root of the tree without deposits. */
  lemma EmptyTreeRoot(h: Hash, depth: nat)
    requires depth >= 1
    ensures TreeRoot(h, depth, []) == ZeroHash(h, depth - 1)
  {
    EmptyNode(h, depth, 0);
  }

  lemma {:induction false} EmptyNode(h: Hash, level: nat, k: nat)
    ensures Node(h, [], level, k) == ZeroSibling(h, level)
  {
    if level == 0 {
    } else {
      EmptyNode(h, level - 1, 2 * k);
      EmptyNode(h, level - 1, 2 * k + 1);
    }
  }

  // ---- binding ----

  /** The two children hashed into node k of level + 1. */
  function PairAt(h: Hash, leaves: seq<Word>, level: nat, k: nat): (Word, Word) {
    (Node(h, leaves, level, 2 * k), Node(h, leaves, level, 2 * k + 1))
  }

  /** On the way up from leaf k, the two trees hash different pairs of this level to the same word. */
  ghost predicate CollisionAt(h: Hash, a: seq<Word>, b: seq<Word>, level: nat, k: nat) {
    var p := Above(k, level + 1);
    && PairAt(h, a, level, p) != PairAt(h, b, level, p)
    && Node(h, a, level + 1, p) == Node(h, b, level + 1, p)
  }

  ghost predicate CollisionAbove(h: Hash, a: seq<Word>, b: seq<Word>, depth: nat, k: nat) {
    exists level :: 0 <= level < depth && CollisionAt(h, a, b, level, k)
  }

  /** A root binds its leaves: equal roots and different leaves exhibit a hash collision on the leaf's own path. */
  lemma {:induction false} RootBinds(h: Hash, a: seq<Word>, b: seq<Word>, depth: nat, k: nat)
    requires Node(h, a, depth, Above(k, depth)) == Node(h, b, depth, Above(k, depth))
    ensures LeafAt(a, k) == LeafAt(b, k) || CollisionAbove(h, a, b, depth, k)
    decreases depth
  {
    if depth == 0 {
    } else {
      var p := Above(k, depth);
      if PairAt(h, a, depth - 1, p) != PairAt(h, b, depth - 1, p) {
        assert CollisionAt(h, a, b, depth - 1, k);
      } else {
        var up := Above(k, depth - 1);
        assert up == 2 * p || up == 2 * p + 1;
        RootBinds(h, a, b, depth - 1, k);
      }
    }
  }
}
