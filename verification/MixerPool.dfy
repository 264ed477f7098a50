/**
 The mixer pool account and its four instructions. A failed instruction is rolled back by the
 runtime, so every error leaves the account as it was.
 */
module MixerPool {
  import opened Bytes
  import opened MerkleTree
  import opened RootHistory
  import W = WireFormats

  const TREE_LEVELS: nat := 20
  const MAX_LEAVES: nat := 1_048_576

  /** The leaf limit is the capacity of a tree of the deployed depth. */
  lemma MaxLeavesIsCapacity()
    ensures Pow2(TREE_LEVELS) == MAX_LEAVES
  {
    assert Pow2(5) == 32;
    assert Pow2(10) == 1024;
    assert Pow2(15) == 32768;
  }

  type Key = nat

  datatype MixerError =
    | AccountInUse | PoolPaused | TreeFull | PoseidonHashFailed | TransferFailed
    | PublicInputOutOfRange | FeeOverflow | FeeExceedsDenomination | RootNotFound
    | RecipientAliasesPool | RecipientMismatch | RelayerMismatch | InvalidProof
    | InsufficientPoolBalance | Unauthorized | InvalidDenomination

  datatype Outcome = Paid(amount: nat, fee: nat) | Done | Failed(error: MixerError)

  /** The five public inputs of a withdrawal, as the integers their 32 bytes stand for. */
  datatype PublicInputs = PublicInputs(root: Word, nullifierHash: Word, recipient: Word, relayer: Word, fee: Word)

  const HALF_KEY: nat := 0x1_00000000_00000000_00000000_00000000

  /** A public key as one field element: its two 16-byte halves hashed together. */
  function KeyField(h: Hash, key: Key): Word {
    h(key / HALF_KEY, key % HALF_KEY)
  }

  lemma HalfKeyIsSixteenBytes()
    ensures Pow256(16) == HALF_KEY
  {
    assert Pow256(4) == 0x1_0000_0000;
    assert Pow256(8) == 0x1_00000000_00000000;
    assert Pow256(12) == 0x1_00000000_00000000_00000000;
  }

  /** From the bytes of a key: the first sixteen are hashed first, the last sixteen second. */
  lemma KeyFieldOfBytes(h: Hash, hi: seq<Byte>, lo: seq<Byte>)
    requires |hi| == 16 && |lo| == 16
    ensures KeyField(h, FromBe(hi + lo)) == h(FromBe(hi), FromBe(lo))
  {
    HalfKeyIsSixteenBytes();
    FromBeConcat(hi, lo);
    FromBeBound(lo);
    Halves(FromBe(hi), FromBe(lo));
  }

  lemma Halves(hi: nat, lo: nat)
    requires lo < HALF_KEY
    ensures (hi * HALF_KEY + lo) / HALF_KEY == hi && (hi * HALF_KEY + lo) % HALF_KEY == lo
  {
  }

  // ---- public inputs ----

  /** The program's reading of the packed inputs: five big-endian words, in this order. */
  function ParsePublicInputs(b: seq<Byte>): PublicInputs
    requires |b| == 160
  {
    PublicInputs(FromBe(b[0..32]), FromBe(b[32..64]), FromBe(b[64..96]), FromBe(b[96..128]), FromBe(b[128..160]))
  }

  /** What the relayer packs is what the program reads. */
  lemma PackedInputsReadBack(signals: seq<int>, b: seq<Byte>)
    requires |signals| == 5 && |b| == 160 && forall k :: 0 <= k < 5 ==> W.WordAt(b, k) == signals[k]
    ensures var inputs := ParsePublicInputs(b);
      && inputs.root == signals[0] && inputs.nullifierHash == signals[1] && inputs.recipient == signals[2]
      && inputs.relayer == signals[3] && inputs.fee == signals[4]
  {
    assert W.WordAt(b, 0) == signals[0] && W.WordAt(b, 1) == signals[1] && W.WordAt(b, 2) == signals[2];
    assert W.WordAt(b, 3) == signals[3] && W.WordAt(b, 4) == signals[4];
  }

  /** The empty leaf is the word of 32 zero bytes. */
  lemma EmptyLeafBytes()
    ensures FromBe(Copies<Byte>(0, 32)) == ZERO_VALUE
  {
    W.FromBeZeros(Copies<Byte>(0, 32));
  }

  /** The index of the ring takes exactly the values of one byte. */
  lemma RootIndexFillsOneByte()
    ensures ROOT_HISTORY_SIZE == Pow256(1)
  {
  }

  /** Different halves, hashed to the same word. */
  predicate HalvesCollide(h: Hash, a: Key, b: Key) {
    (a / HALF_KEY, a % HALF_KEY) != (b / HALF_KEY, b % HALF_KEY) && KeyField(h, a) == KeyField(h, b)
  }

  /** Two keys bound by the same field element are one key, or their halves are a collision of the hash. */
  lemma KeyFieldBinds(h: Hash, a: Key, b: Key)
    requires KeyField(h, a) == KeyField(h, b)
    ensures a == b || HalvesCollide(h, a, b)
  {
    if (a / HALF_KEY, a % HALF_KEY) == (b / HALF_KEY, b % HALF_KEY) {
      SameHalves(a, b);
    }
  }

  lemma SameHalves(a: Key, b: Key)
    requires (a / HALF_KEY, a % HALF_KEY) == (b / HALF_KEY, b % HALF_KEY)
    ensures a == b
  {
    var p, q := (a / HALF_KEY, a % HALF_KEY), (b / HALF_KEY, b % HALF_KEY);
    assert p.0 == q.0 && p.1 == q.1;
    assert a == HALF_KEY * p.0 + p.1 && b == HALF_KEY * q.0 + q.1;
  }

  /** Lamports owed for the deposits not yet paid out. */
  function Backing(denomination: nat, deposits: nat, withdrawals: nat): int {
    denomination * (deposits - withdrawals)
  }

  /** The vault can pay once more exactly while some deposit is not paid out. */
  lemma BackingCoversOneMore(denomination: nat, deposits: nat, withdrawals: nat)
    requires denomination > 0 && withdrawals <= deposits
    ensures Backing(denomination, deposits, withdrawals) >= denomination <==> withdrawals < deposits
    ensures Backing(denomination, deposits + 1, withdrawals) ==
      Backing(denomination, deposits, withdrawals) + denomination
    ensures Backing(denomination, deposits, withdrawals + 1) ==
      Backing(denomination, deposits, withdrawals) - denomination
  {
    if withdrawals < deposits {
      MulAtLeast(denomination, deposits - withdrawals);
    }
  }

  lemma MulAtLeast(x: nat, y: nat)
    requires y >= 1
    ensures x * y >= x
  {
  }

  /** Everything the account and its companion accounts store that changes over time. */
  datatype Ledger = Ledger(
    nextLeafIndex: nat, currentRootIndex: nat, history: seq<Word>, filled: seq<Word>,
    commitments: set<Word>, nullifiers: set<Word>, lamports: int)

  /** The tree part: next position, ring of roots and stored nodes belong to these deposits. */
  ghost predicate TreeConsistent(h: Hash, leaves: seq<Word>, l: Ledger) {
    && l.nextLeafIndex == |leaves| <= Pow2(|l.filled|)
    && l.currentRootIndex == |leaves| % ROOT_HISTORY_SIZE
    && HistoryOf(h, |l.filled|, leaves, l.history)
    && Tracks(h, leaves, l.filled)
  }

  /** The current slot of the ring holds the root of the whole tree. */
  lemma CurrentIsLast(h: Hash, leaves: seq<Word>, l: Ledger)
    requires TreeConsistent(h, leaves, l)
    ensures l.history[l.currentRootIndex] == TreeRoot(h, |l.filled|, leaves)
  {
    assert leaves[..Occupant(|leaves|, l.currentRootIndex)] == leaves;
  }

  /** The money part: one account per deposit, and the vault backs every deposit not paid out. */
  ghost predicate MoneyConsistent(denomination: nat, rent: nat, leaves: seq<Word>, l: Ledger) {
    && l.commitments == (set c | c in leaves)
    && Distinct(leaves)
    && |l.nullifiers| <= |leaves|
    && l.lamports == rent + Backing(denomination, |leaves|, |l.nullifiers|)
  }

  /** The ledger one deposit later. */
  function AfterDeposit(h: Hash, denomination: nat, l: Ledger, commitment: Word): Ledger
    requires |l.history| == ROOT_HISTORY_SIZE
  {
    var w := InsertFrom(h, 0, l.nextLeafIndex, commitment, l.filled);
    var next := (l.currentRootIndex + 1) % ROOT_HISTORY_SIZE;
    Ledger(l.nextLeafIndex + 1, next, l.history[next := w.root], w.filled,
           l.commitments + {commitment}, l.nullifiers, l.lamports + denomination)
  }

  /** A deposit keeps the tree part, and the root it leaves current is that of the grown tree. */
  lemma DepositKeepsTree(h: Hash, denomination: nat, leaves: seq<Word>, l: Ledger, c: Word)
    requires TreeConsistent(h, leaves, l) && |leaves| < Pow2(|l.filled|)
    ensures
      var l' := AfterDeposit(h, denomination, l, c);
      && TreeConsistent(h, leaves + [c], l')
      && l'.history[l'.currentRootIndex] == TreeRoot(h, |l.filled|, leaves + [c])
  {
    var w := InsertFrom(h, 0, |leaves|, c, l.filled);
    assert (l.currentRootIndex + 1) % ROOT_HISTORY_SIZE == (|leaves| + 1) % ROOT_HISTORY_SIZE;
    assert w.root == TreeRoot(h, |l.filled|, leaves + [c]) && Tracks(h, leaves + [c], w.filled) by {
      InsertCorrect(h, leaves, c, l.filled);
    }
    PushKeepsHistory(h, |l.filled|, leaves, c, l.history);
  }

  /** A deposit of a new commitment keeps the money part. */
  lemma DepositKeepsMoney(h: Hash, denomination: nat, rent: nat, leaves: seq<Word>, l: Ledger, c: Word)
    requires MoneyConsistent(denomination, rent, leaves, l) && denomination > 0
    requires c !in l.commitments && |l.history| == ROOT_HISTORY_SIZE
    ensures MoneyConsistent(denomination, rent, leaves + [c], AfterDeposit(h, denomination, l, c))
  {
    BackingCoversOneMore(denomination, |leaves|, |l.nullifiers|);
    assert (set x | x in leaves + [c]) == (set x | x in leaves) + {c};
    DistinctAppend(leaves, c);
  }

  lemma DepositKeepsLedger(h: Hash, denomination: nat, rent: nat, leaves: seq<Word>, l: Ledger, c: Word)
    requires TreeConsistent(h, leaves, l) && |leaves| < Pow2(|l.filled|)
    requires MoneyConsistent(denomination, rent, leaves, l) && denomination > 0 && c !in l.commitments
    ensures
      var l' := AfterDeposit(h, denomination, l, c);
      && TreeConsistent(h, leaves + [c], l') && MoneyConsistent(denomination, rent, leaves + [c], l')
      && l'.history[l'.currentRootIndex] == TreeRoot(h, |l.filled|, leaves + [c])
  {
    DepositKeepsTree(h, denomination, leaves, l, c);
    DepositKeepsMoney(h, denomination, rent, leaves, l, c);
  }

  lemma DistinctAppend(leaves: seq<Word>, c: Word)
    requires Distinct(leaves) && c !in leaves
    ensures Distinct(leaves + [c])
  {
  }

  class Pool {
    const hash: Hash
    const key: Key
    const authority: Key
    const denomination: nat
    const rent: nat
    var nextLeafIndex: nat
    var currentRootIndex: nat
    const rootHistory: array<Word>
    const filledSubtrees: array<Word>
    var isPaused: bool
    var lamports: nat
    /** The commitment and nullifier accounts that exist for this pool. */
    var commitments: set<Word>
    var nullifiers: set<Word>
    /** All commitments deposited so far, in order. */
    ghost var leaves: seq<Word>

    ghost predicate Valid()
      reads this, rootHistory, filledSubtrees
    {
      && rootHistory != filledSubtrees
      && rootHistory.Length == ROOT_HISTORY_SIZE
      && denomination > 0
      && TreeConsistent(hash, leaves, Stored())
      && MoneyConsistent(denomination, rent, leaves, Stored())
    }

    ghost function Stored(): Ledger
      reads this, rootHistory, filledSubtrees
    {
      Ledger(nextLeafIndex, currentRootIndex, rootHistory[..], filledSubtrees[..], commitments, nullifiers, lamports)
    }

    constructor Initialize(hash: Hash, levels: nat, key: Key, authority: Key, denomination: nat, rent: nat)
      requires levels >= 1 && denomination > 0
      ensures Valid()
      ensures leaves == [] && nullifiers == {} && !isPaused && lamports == rent
      ensures this.hash == hash && filledSubtrees.Length == levels && this.denomination == denomination
      ensures this.key == key && this.authority == authority && this.rent == rent
      ensures fresh(rootHistory) && fresh(filledSubtrees)
    {
      this.hash, this.key, this.authority := hash, key, authority;
      this.denomination, this.rent, this.lamports := denomination, rent, rent;
      nextLeafIndex, currentRootIndex, isPaused := 0, 0, false;
      commitments, nullifiers := {}, {};
      leaves := [];
      var emptyRoot := ZeroHash(hash, levels - 1);
      var history := new Word[ROOT_HISTORY_SIZE](_ => emptyRoot);
      var filled := new Word[levels](i requires i >= 0 => ZeroHash(hash, i));
      rootHistory, filledSubtrees := history, filled;
      new;
      EmptyTreeRoot(hash, levels);
      forall i | 0 <= i < levels ensures Above(0, i) == 0 { AboveZero(i); }
    }

    method IsKnownRoot(root: Word) returns (known: bool)
      requires Valid()
      ensures known <==> root in rootHistory[..]
    {
      for i := 0 to rootHistory.Length
        invariant root !in rootHistory[..i]
      {
        if rootHistory[i] == root {
          return true;
        }
      }
      assert rootHistory[..rootHistory.Length] == rootHistory[..];
      return false;
    }

    /** The latest root is the root of the whole tree of deposits. */
    method CurrentRoot() returns (root: Word)
      requires Valid()
      ensures root == TreeRoot(hash, filledSubtrees.Length, leaves)
    {
      root := rootHistory[currentRootIndex];
      CurrentIsLast(hash, leaves, Stored());
    }

    method PushRoot(root: Word)
      requires rootHistory.Length == ROOT_HISTORY_SIZE
      modifies this`currentRootIndex, rootHistory
      ensures currentRootIndex == (old(currentRootIndex) + 1) % ROOT_HISTORY_SIZE
      ensures rootHistory[..] == old(rootHistory[..])[currentRootIndex := root]
    {
      currentRootIndex := (currentRootIndex + 1) % ROOT_HISTORY_SIZE;
      rootHistory[currentRootIndex] := root;
    }

    /** The insertion loop: same nodes stored and same root as the walk from the leaf. */
    method Insert(commitment: Word, leafIndex: nat) returns (root: Word)
      modifies filledSubtrees
      ensures Walk(root, filledSubtrees[..]) == InsertFrom(hash, 0, leafIndex, commitment, old(filledSubtrees[..]))
    {
      var currentHash, currentIndex := commitment, leafIndex;
      ghost var goal := InsertFrom(hash, 0, leafIndex, commitment, filledSubtrees[..]);
      for i := 0 to filledSubtrees.Length
        invariant InsertFrom(hash, i, currentIndex, currentHash, filledSubtrees[..]) == goal
      {
        var zeroSibling := if i == 0 then ZERO_VALUE else ZeroHash(hash, i - 1);
        ghost var filled := filledSubtrees[..];
        if currentIndex % 2 == 0 {
          filledSubtrees[i] := currentHash;
          assert filledSubtrees[..] == filled[i := currentHash];
          currentHash := hash(currentHash, zeroSibling);
        } else {
          currentHash := hash(filledSubtrees[i], currentHash);
        }
        currentIndex := currentIndex / 2;
      }
      root := currentHash;
    }

    /**
     A deposit: the leaf is appended, its root becomes current and the vault grows by one
     denomination. Whether the depositor can pay and the hash syscall succeeds comes from outside.
     */
    method Deposit(commitment: Word, funded: bool, syscallOk: bool) returns (r: Outcome)
      requires Valid()
      modifies this, rootHistory, filledSubtrees
      ensures Valid()
      ensures r.Done? <==>
        && commitment !in old(leaves) && !old(isPaused)
        && |old(leaves)| < Pow2(filledSubtrees.Length) && funded && syscallOk
      ensures r == Failed(TreeFull) ==> |old(leaves)| == Pow2(filledSubtrees.Length)
      ensures r.Done? ==>
        && leaves == old(leaves) + [commitment]
        && lamports == old(lamports) + denomination
        && rootHistory[currentRootIndex] == TreeRoot(hash, filledSubtrees.Length, leaves)
      ensures !r.Done? ==> r.Failed? && leaves == old(leaves) && lamports == old(lamports)
      ensures !r.Done? ==> rootHistory[..] == old(rootHistory[..]) && filledSubtrees[..] == old(filledSubtrees[..])
      ensures nullifiers == old(nullifiers) && isPaused == old(isPaused)
    {
      if commitment in commitments { return Failed(AccountInUse); }
      if isPaused { return Failed(PoolPaused); }
      if nextLeafIndex >= Pow2(filledSubtrees.Length) { return Failed(TreeFull); }
      if !funded { return Failed(TransferFailed); }
      if !syscallOk { return Failed(PoseidonHashFailed); }
      DepositKeepsLedger(hash, denomination, rent, leaves, Stored(), commitment);
      ghost var after := AfterDeposit(hash, denomination, Stored(), commitment);

      lamports := lamports + denomination;
      commitments := commitments + {commitment};
      var newRoot := Insert(commitment, nextLeafIndex);
      PushRoot(newRoot);
      nextLeafIndex := nextLeafIndex + 1;
      leaves := leaves + [commitment];
      assert Stored() == after;
      assert rootHistory[currentRootIndex] == rootHistory[..][currentRootIndex];
      return Done;
    }

    /** All the inputs are canonical field elements. */
    predicate InRange(inputs: PublicInputs) {
      && inputs.root < W.BN254_R && inputs.nullifierHash < W.BN254_R && inputs.recipient < W.BN254_R
      && inputs.relayer < W.BN254_R && inputs.fee < W.BN254_R
    }

    /**
     A withdrawal. Whether the proof verifies comes from outside; everything else the handler
     checks decides the outcome, and a success pays one denomination for one fresh nullifier.
     */
    method Withdraw(inputs: PublicInputs, recipient: Key, relayer: Key, proofValid: bool) returns (r: Outcome)
      requires Valid()
      modifies this`nullifiers, this`lamports
      ensures Valid()
      ensures r.Paid? <==>
        && inputs.nullifierHash !in old(nullifiers)
        && inputs.root < W.BN254_R && inputs.nullifierHash < W.BN254_R && inputs.recipient < W.BN254_R
        && inputs.relayer < W.BN254_R && inputs.fee < W.BN254_R
        && inputs.fee < 0x1_00000000_00000000 && inputs.fee < denomination
        && !isPaused
        && inputs.root in rootHistory[..]
        && recipient != key && relayer != key
        && KeyField(hash, recipient) == inputs.recipient
        && KeyField(hash, relayer) == inputs.relayer
        && proofValid
        && |old(nullifiers)| < |leaves|
      ensures r.Paid? ==>
        && r.amount + r.fee == denomination && r.fee == inputs.fee && r.amount > 0
        && lamports == old(lamports) - denomination
        && nullifiers == old(nullifiers) + {inputs.nullifierHash}
      ensures !r.Paid? ==> r.Failed? && lamports == old(lamports) && nullifiers == old(nullifiers)
      ensures r == Failed(InsufficientPoolBalance) ==> |nullifiers| == |leaves|
      ensures r == Failed(RootNotFound) ==> inputs.root !in rootHistory[..]
    {
      if inputs.nullifierHash in nullifiers { return Failed(AccountInUse); }
      if !InRange(inputs) { return Failed(PublicInputOutOfRange); }
      if inputs.fee >= 0x1_00000000_00000000 { return Failed(FeeOverflow); }
      if isPaused { return Failed(PoolPaused); }
      if inputs.fee >= denomination { return Failed(FeeExceedsDenomination); }
      var known := IsKnownRoot(inputs.root);
      if !known { return Failed(RootNotFound); }
      if recipient == key || relayer == key { return Failed(RecipientAliasesPool); }
      if KeyField(hash, recipient) != inputs.recipient { return Failed(RecipientMismatch); }
      if KeyField(hash, relayer) != inputs.relayer { return Failed(RelayerMismatch); }
      if !proofValid { return Failed(InvalidProof); }
      BackingCoversOneMore(denomination, |leaves|, |nullifiers|);
      var available := if lamports >= rent then lamports - rent else 0;
      if available < denomination { return Failed(InsufficientPoolBalance); }
      var amount := denomination - inputs.fee;
      lamports := lamports - amount;
      if inputs.fee > 0 {
        lamports := lamports - inputs.fee;
      }
      nullifiers := nullifiers + {inputs.nullifierHash};
      return Paid(amount, inputs.fee);
    }

    method SetPaused(caller: Key, paused: bool) returns (r: Outcome)
      requires Valid()
      modifies this`isPaused
      ensures Valid()
      ensures r == (if caller == authority then Done else Failed(Unauthorized))
      ensures isPaused == if caller == authority then paused else old(isPaused)
    {
      if caller != authority { return Failed(Unauthorized); }
      isPaused := paused;
      return Done;
    }

    /**
     What a stale client can rely on: a proof against the tree of the first m deposits is
     accepted exactly while at most 255 deposits have followed, give or take an empty-leaf deposit.
     */
    lemma StaleRootAccepted(m: nat)
      requires Valid() && m <= |leaves| && PrefixesCollisionFree(hash, filledSubtrees.Length, leaves)
      ensures TreeRoot(hash, filledSubtrees.Length, leaves[..m]) in rootHistory[..] <==>
        InWindow(|leaves|, m) || (|leaves| - m == ROOT_HISTORY_SIZE && leaves[m] == ZERO_VALUE)
    {
      WindowExact(hash, filledSubtrees.Length, leaves, rootHistory[..], m);
    }
  }

  /** The initialize instruction: a pool for every positive denomination, and only for the admin. */
  method InitializePool(
      hash: Hash, key: Key, admin: Key, authority: Key, denomination: nat, rent: nat) returns (r: Outcome, pool: Pool?)
    ensures r == if authority != admin then Failed(Unauthorized)
      else if denomination == 0 then Failed(InvalidDenomination) else Done
    ensures (pool != null) == r.Done?
    ensures pool != null ==>
      && fresh(pool) && pool.Valid() && pool.leaves == [] && !pool.isPaused && pool.lamports == rent
      && pool.hash == hash && pool.key == key && pool.authority == authority == admin &&
           pool.denomination == denomination
      && Pow2(pool.filledSubtrees.Length) == MAX_LEAVES
  {
    if authority != admin {
      return Failed(Unauthorized), null;
    }
    if denomination == 0 {
      return Failed(InvalidDenomination), null;
    }
    pool := new Pool.Initialize(hash, TREE_LEVELS, key, authority, denomination, rent);
    MaxLeavesIsCapacity();
    return Done, pool;
  }
}
