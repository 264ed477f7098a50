/** Registries of spent nullifiers: a plain table, and a cache in front of the chain. */
module NullifierRegistry {

  type Nullifier = nat

  datatype Entry = Entry(nullifier: Nullifier, txSignature: string)

  /** The table used without a chain client. A second mark is an error. */
  class InMemoryNullifierRegistry {
    var spent: map<Nullifier, Entry>

    constructor ()
      ensures spent == map[]
    {
      spent := map[];
    }

    method IsSpent(n: Nullifier) returns (r: bool)
      ensures r <==> n in spent
    {
      return n in spent;
    }

    /** False stands for the thrown "already spent". */
    method MarkSpent(n: Nullifier, txSignature: string) returns (ok: bool)
      modifies this
      ensures ok <==> n !in old(spent)
      ensures spent == if ok then old(spent)[n := Entry(n, txSignature)] else old(spent)
    {
      if n in spent {
        return false;
      }
      spent := spent[n := Entry(n, txSignature)];
      return true;
    }

    method Count() returns (k: nat)
      ensures k == |spent|
    {
      return |spent|;
    }
  }

  /**
   The cache in front of the chain. The chain's spent set only grows; Sound says the cache
   never claims more than it.
   */
  class OnChainNullifierRegistry {
    var cache: map<Nullifier, Entry>

    ghost predicate Sound(chain: set<Nullifier>)
      reads this
    {
      cache.Keys <= chain
    }

    constructor ()
      ensures forall chain: set<Nullifier> :: Sound(chain)
    {
      cache := map[];
    }

    /** The answer is the chain's, whether or not it came from the cache. */
    method IsSpent(n: Nullifier, accountExists: bool, ghost chain: set<Nullifier>) returns (r: bool)
      requires Sound(chain) && (accountExists <==> n in chain)
      modifies this
      ensures r <==> n in chain
      ensures Sound(chain)
      ensures cache.Keys == old(cache.Keys) + if r then {n} else {}
      ensures forall m :: m in old(cache) ==> cache[m] == old(cache)[m]
    {
      if n in cache {
        return true;
      }
      var spentOnChain := accountExists;
      if spentOnChain {
        cache := cache[n := Entry(n, "on-chain")];
      }
      return spentOnChain;
    }

    /** Marking follows a confirmed withdrawal, so the chain already has the nullifier. */
    method MarkSpent(n: Nullifier, txSignature: string, ghost chain: set<Nullifier>)
      requires Sound(chain) && n in chain
      modifies this
      ensures Sound(chain)
      ensures cache == old(cache)[n := Entry(n, txSignature)]
    {
      cache := cache[n := Entry(n, txSignature)];
    }

    method Count() returns (k: nat)
      ensures k == |cache|
    {
      return |cache|;
    }
  }
}
