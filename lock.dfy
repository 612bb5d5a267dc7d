/** The poll-with-timeout mutex over the shared cache: add-if-absent on a
    prefixed key, a 10 ms polling loop that gives up once the waited time
    exceeds the timeout, and deletion of the key when the guarded body exits. */
module Lock {
  import opened Types

  const Prefix: string := "lock-transmission-"

  /** Milliseconds between two add attempts. */
  const Hop: nat := 10

  /** The timeout `lock` uses when its caller gives none. */
  const DefaultTimeout: int := 5000

  /** The cache entry that stands for the lock on key. */
  function LockId(key: string): (id: string)
    ensures |id| == |Prefix| + |key|
    ensures id[..|Prefix|] == Prefix && id[|Prefix|..] == key
  {
    Prefix + key
  }

  /** How many add attempts the loop makes before it gives up. */
  function Attempts(timeout: int): (n: nat)
    ensures n >= 1
    ensures forall i: nat :: i < n ==> i == 0 || i * Hop <= timeout
    ensures n * Hop > timeout
    ensures timeout >= 0 ==> n == timeout / Hop + 1
  {
    if timeout < 0 then 1 else timeout / Hop + 1
  }

  /** The waited time the timeout error reports: the least multiple of the
      hop strictly above the timeout (for a non-negative timeout). */
  function GiveUpWait(timeout: int): (w: int)
    ensures w % Hop == 0 && w > timeout
    ensures timeout >= 0 ==> w - Hop <= timeout
  {
    Hop * Attempts(timeout)
  }

  /** Whether another process holds cache entry id when attempt i is made. */
  type Contention = (string, nat) -> bool

  /** The loop acquires id within its attempts: the entry is not ours already
      and some attempt finds no other holder. */
  ghost predicate Granted(keys: set<string>, id: string, timeout: int, others: Contention) {
    id !in keys && exists i: nat :: i < Attempts(timeout) && !others(id, i)
  }

  /** The shared cache, reduced to the set of entries present in it. */
  class Cache {
    var keys: set<string>

    constructor ()
      ensures keys == {}
    {
      keys := {};
    }

    /** cache.add: stores key only when no one holds it. */
    method Add(key: string, heldElsewhere: bool) returns (added: bool)
      modifies this
      ensures added <==> key !in old(keys) && !heldElsewhere
      ensures keys == if added then old(keys) + {key} else old(keys)
    {
      added := key !in keys && !heldElsewhere;
      if added {
        keys := keys + {key};
      }
    }

    /** cache.delete. */
    method Delete(key: string)
      modifies this
      ensures keys == old(keys) - {key}
    {
      keys := keys - {key};
    }
  }

  /** Entering `with lock(key, timeout)`: on success returns the waited time. */
  method Acquire(cache: Cache, key: string, timeout: int, others: Contention) returns (r: Result<nat>)
    modifies cache
    ensures r.Success? <==> Granted(old(cache.keys), LockId(key), timeout, others)
    ensures r.Success? ==> cache.keys == old(cache.keys) + {LockId(key)}
    ensures r.Success? ==> r.value % Hop == 0 && r.value / Hop < Attempts(timeout)
    ensures r.Success? ==> !others(LockId(key), r.value / Hop)
    ensures r.Success? ==> forall j: nat :: j < r.value / Hop ==> others(LockId(key), j)
    ensures r.Failure? ==> cache.keys == old(cache.keys) && r.error == LockTimeout(GiveUpWait(timeout))
  {
    var id := LockId(key);
    var waited: nat, attempt: nat := 0, 0;
    var added := cache.Add(id, others(id, attempt));
    while !added
      invariant waited == Hop * attempt && attempt < Attempts(timeout)
      invariant !added ==> cache.keys == old(cache.keys)
      invariant !added ==> id in old(cache.keys) || forall j: nat :: j <= attempt ==> others(id, j)
      invariant added ==> id !in old(cache.keys) && cache.keys == old(cache.keys) + {id} && !others(id, attempt)
      invariant forall j: nat :: j < attempt ==> others(id, j) || id in old(cache.keys)
      decreases Attempts(timeout) - attempt
    {
      // time.sleep(hops / 1000)
      waited, attempt := waited + Hop, attempt + 1;
      if waited > timeout {
        r := Failure(LockTimeout(waited));
        return;
      }
      added := cache.Add(id, others(id, attempt));
    }
    r := Success(waited);
  }

  /** Leaving the `with` block, normally or by an exception. */
  method Release(cache: Cache, key: string)
    modifies cache
    ensures cache.keys == old(cache.keys) - {LockId(key)}
  {
    cache.Delete(LockId(key));
  }

  /** The reported wait for a 100 ms timeout is 110 ms. */
  lemma GiveUpAfterHundred()
    ensures GiveUpWait(100) == 110 && Attempts(100) == 11
  {
  }
}
