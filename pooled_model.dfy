/** An idle-queue entry of the model pool. */
module PooledModels {
  import opened GenerativeModels

  /**
   * A pooled handle with the key it was pooled under and the instant it was last used.
   * Model and PoolKey never change; LastUsed changes only through UpdateLastUsed.
   */
  class PooledModel {
    const Model: GenerativeModel
    const PoolKey: string
    var LastUsed: int

    /** A new entry is stamped with its creation time. */
    constructor (model: GenerativeModel, poolKey: string, now: int)
      ensures Model == model && PoolKey == poolKey
      ensures LastUsed == now
    {
      Model, PoolKey := model, poolKey;
      LastUsed := now;
    }

    /** Re-stamps the entry with the current time; afterwards it is not expired under any non-negative timeout. */
    method UpdateLastUsed(now: int)
      modifies this
      ensures LastUsed == now
      ensures forall timeout :: timeout >= 0 ==> !IsExpired(now, timeout)
    {
      LastUsed := now;
    }

    /** The entry has been idle strictly longer than timeout. */
    predicate IsExpired(now: int, timeout: int)
      reads this
      // under a non-negative timeout only an entry last used strictly before now can be expired
      ensures IsExpired(now, timeout) && timeout >= 0 ==> LastUsed < now
    {
      IdleLongerThan(LastUsed, now, timeout)
    }
  }

  /** Something last used at lastUsed has, at now, been idle strictly longer than timeout. */
  predicate IdleLongerThan(lastUsed: int, now: int, timeout: int)
  {
    now - lastUsed > timeout
  }

  /** Expiry is strict: an entry exactly timeout old is still live, one tick later it is expired. */
  lemma ExpiryIsStrict(e: PooledModel, timeout: int)
    ensures !e.IsExpired(e.LastUsed + timeout, timeout)
    ensures e.IsExpired(e.LastUsed + timeout + 1, timeout)
  {
  }

  /** Without a call to UpdateLastUsed, an expired entry stays expired as time advances. */
  lemma ExpiryPersists(e: PooledModel, now: int, later: int, timeout: int)
    requires now <= later
    requires e.IsExpired(now, timeout)
    ensures e.IsExpired(later, timeout)
  {
  }
}
