/**
 * The keyed pool of model handles: per key an idle queue of pooled entries and a counting
 * semaphore of MaxPoolSize permits. Operations are modelled one at a time; a wait on a
 * semaphore with no permit left is reported as Blocked instead of suspending.
 */
module ModelPool {
  import opened Wrappers
  import opened PoolOptions
  import opened GenerativeModels
  import opened PooledModels
  import opened AccessTokens
  import opened PoolKeys
  import opened IdleQueues

  /** The exception an acquire passes on to its caller: from the handle factory or from the token step. */
  datatype Fault = FactoryFault | CredentialFault

  datatype AcquireOutcome =
    | Acquired(model: GenerativeModel)
    | Blocked                     // no permit free: the real call waits
    | Failed(fault: Fault)        // the exception propagates to the caller

  /** What one cleanup pass does to a key's queue: the queue it leaves and how many entries it evicts. */
  datatype CleanupPlan = CleanupPlan(queue: seq<PooledModel>, evictions: nat)

  /** How a cleanup tick ends: normally, or with a SemaphoreFullException escaping the timer callback. */
  datatype CleanupOutcome = Completed | SemaphoreFull

  /** The two registries after some cleanup passes, and whether one of them raised SemaphoreFullException. */
  datatype Sweep = Sweep(pools: map<string, seq<PooledModel>>, sems: map<string, int>, crashed: bool)

  /**
   * What an acquire may write besides the pool and the token cache: the first live entry
   * of q (it is re-stamped) and its handle (it gets a token); nothing when there is none.
   */
  function Reused(q: seq<PooledModel>, now: int, timeout: int): set<object>
    reads q
  {
    var i := FirstLive(Snapshot(q), now, timeout);
    if i < |q| then {q[i], q[i].Model} else {}
  }

  /** A second update of the same key overrides the first. */
  lemma UpdateTwice<K, V>(m: map<K, V>, k: K, a: V, b: V)
    ensures m[k := a][k := b] == m[k := b]
  {
  }

  class GenerativeModelPool {
    var ModelPools: map<string, seq<PooledModel>>
    var PoolSemaphores: map<string, int>
    var CleanupTimerActive: bool
    const Options: GenerativeModelPoolOptions
    const TokenProvider: AccessTokenProvider

    /**
     * Both registries know the same keys; every permit count lies in [0, MaxPoolSize];
     * no idle queue is longer than MaxPoolSize; every entry sits in the queue of its own key.
     */
    ghost predicate Valid()
      reads this
    {
      Options.MaxPoolSize >= 1 && Registries(ModelPools, PoolSemaphores)
    }

    /** The invariant of Valid on a pair of registry values. */
    ghost predicate Registries(pools: map<string, seq<PooledModel>>, sems: map<string, int>)
    {
      && pools.Keys == sems.Keys
      && (forall k :: k in sems ==> 0 <= sems[k] <= Options.MaxPoolSize)
      && (forall k :: k in pools ==> |pools[k]| <= Options.MaxPoolSize)
      && (forall k, e :: k in pools && e in pools[k] ==> e.PoolKey == k)
    }

    /** Replacing key's queue by a subsequence-sized queue of its own entries keeps the registries invariant. */
    lemma ReplaceKeepsRegistries(pools: map<string, seq<PooledModel>>, sems: map<string, int>,
                                 key: string, queue: seq<PooledModel>)
      requires Registries(pools, sems) && key in pools
      requires |queue| <= |pools[key]| && forall e :: e in queue ==> e in pools[key]
      ensures Registries(pools[key := queue], sems)
    {
    }

    /** An empty pool; the cleanup timer is started. */
    constructor (tokenProvider: AccessTokenProvider, options: GenerativeModelPoolOptions)
      requires options.MaxPoolSize >= 1
      ensures Valid()
      ensures ModelPools == map[] && PoolSemaphores == map[] && CleanupTimerActive
      ensures Options == options && TokenProvider == tokenProvider
    {
      ModelPools, PoolSemaphores := map[], map[];
      Options, TokenProvider := options, tokenProvider;
      CleanupTimerActive := true;
    }

    /** The idle queue of key; a key not yet registered reads as the empty queue it would get. */
    function Queue(key: string): seq<PooledModel>
      reads this
    {
      if key in ModelPools then ModelPools[key] else []
    }

    /** The free permits of key; a key not yet registered reads as the MaxPoolSize it would get. */
    function Permits(key: string): int
      reads this
    {
      if key in PoolSemaphores then PoolSemaphores[key] else Options.MaxPoolSize
    }

    /** Registers key in both registries if it is new: an empty queue and a full semaphore. */
    method GetOrAddPool(key: string)
      requires Valid()
      modifies this
      ensures Valid()
      ensures ModelPools == old(ModelPools)[key := old(Queue(key))]
      ensures PoolSemaphores == old(PoolSemaphores)[key := old(Permits(key))]
      ensures CleanupTimerActive == old(CleanupTimerActive)
    {
      if key !in ModelPools {
        ModelPools := ModelPools[key := []];
      }
      if key !in PoolSemaphores {
        PoolSemaphores := PoolSemaphores[key := Options.MaxPoolSize];
      }
    }

    /**
     * Registers key if it is new, then waits on its semaphore: entered is false when no
     * permit is free (the real call suspends there), otherwise one permit is taken.
     */
    method TakePermit(key: string) returns (entered: bool)
      requires Valid()
      modifies this
      ensures Valid()
      ensures entered <==> old(Permits(key)) > 0
      ensures ModelPools == old(ModelPools)[key := old(Queue(key))]
      ensures PoolSemaphores == old(PoolSemaphores)[key := old(Permits(key)) - if entered then 1 else 0]
      ensures CleanupTimerActive == old(CleanupTimerActive)
    {
      GetOrAddPool(key);
      entered := PoolSemaphores[key] > 0;
      if entered {
        PoolSemaphores := PoolSemaphores[key := PoolSemaphores[key] - 1];
      }
    }

    /** Release on a semaphore: one more permit, or full (SemaphoreFullException) when all permits are already free. */
    method ReleasePermit(key: string) returns (full: bool)
      requires Valid() && key in PoolSemaphores
      modifies this
      ensures Valid()
      ensures full <==> old(PoolSemaphores[key]) == Options.MaxPoolSize
      ensures PoolSemaphores ==
              old(PoolSemaphores)[key := if full then old(PoolSemaphores[key]) else old(PoolSemaphores[key]) + 1]
      ensures ModelPools == old(ModelPools) && CleanupTimerActive == old(CleanupTimerActive)
    {
      full := PoolSemaphores[key] == Options.MaxPoolSize;
      if !full {
        PoolSemaphores := PoolSemaphores[key := PoolSemaphores[key] + 1];
      }
    }

    /**
     * The dequeue loop of acquire, on the value of a queue with snapshot s: takes entries off
     * the front, dropping expired ones, and stops at the first live entry, which it returns
     * (null when none is left) together with what is left behind it.
     */
    method FindFirstLive(q: seq<PooledModel>, now: int, ghost s: seq<Stamped>) returns (hit: PooledModel?, rest: seq<PooledModel>)
      requires s == Snapshot(q)
      ensures var i := FirstLive(s, now, Options.ModelIdleTimeout);
              && hit == (if i < |q| then q[i] else null)
              && rest == (if i < |q| then q[i + 1..] else [])
      ensures |rest| <= |q| && forall e :: e in rest ==> e in q
    {
      ghost var j := 0;
      rest := q;
      hit := null;
      while rest != []
        invariant 0 <= j <= |q| && rest == q[j..]
        invariant forall t :: 0 <= t < j ==> s[t].IsExpired(now, Options.ModelIdleTimeout)
      {
        var pooledModel := rest[0];
        assert s[j] == Stamped(pooledModel, pooledModel.LastUsed);
        rest := rest[1..];
        j := j + 1;
        if !pooledModel.IsExpired(now, Options.ModelIdleTimeout) {
          hit := pooledModel;
          FirstLiveIsFirst(s, now, Options.ModelIdleTimeout, j - 1);
          break;
        }
      }
      if hit == null {
        FirstLiveIsFirst(s, now, Options.ModelIdleTimeout, |q|);
      }
    }

    /**
     * The dequeue loop of acquire on key's queue: the queue loses the expired entries in
     * front of the first live one and that entry itself, which is returned (null when none is left).
     */
    method DequeueFirstLive(key: string, now: int, ghost q: seq<PooledModel>, ghost i: nat) returns (hit: PooledModel?)
      requires Valid() && key in ModelPools
      requires ModelPools[key] == q && i == FirstLive(Snapshot(q), now, Options.ModelIdleTimeout)
      modifies this
      ensures Valid()
      ensures && ModelPools == old(ModelPools)[key := if i < |q| then q[i + 1..] else []]
              && hit == (if i < |q| then q[i] else null)
      ensures PoolSemaphores == old(PoolSemaphores) && CleanupTimerActive == old(CleanupTimerActive)
    {
      var rest;
      hit, rest := FindFirstLive(ModelPools[key], now, Snapshot(q));
      assert rest == (if i < |q| then q[i + 1..] else []);
      // the queue is shared: writing it back once is what the dequeues amount to
      ReplaceKeepsRegistries(ModelPools, PoolSemaphores, key, rest);
      ModelPools := ModelPools[key := rest];
    }

    /** The reuse path: re-stamp the entry, fetch a token, attach it to the entry's handle. */
    method ServeFromPool(pooledModel: PooledModel, now: int, credential: Result<string, CredentialError>)
      returns (outcome: AcquireOutcome)
      modifies pooledModel, pooledModel.Model, TokenProvider
      ensures pooledModel.LastUsed == now
      ensures outcome.Acquired? || outcome == Failed(CredentialFault)
      ensures outcome.Acquired? ==> outcome.model == pooledModel.Model
      ensures outcome.Failed? <==> old(TokenProvider.NeedsRefresh(now)) && credential.Failure?
      ensures outcome.Acquired? ==>
                TokenProvider.CachedAccessToken.Some? &&
                outcome.model.AccessToken == TokenProvider.CachedAccessToken
      // the token cache takes its step; a failed fetch leaves the handle's token as it was
      ensures (TokenProvider.CachedAccessToken, TokenProvider.TokenExpiry) == old(TokenProvider.StateAfter(now, credential))
      ensures outcome.Failed? ==> pooledModel.Model.AccessToken == old(pooledModel.Model.AccessToken)
    {
      pooledModel.UpdateLastUsed(now);
      var token := TokenProvider.GetAccessToken(now, credential);
      if token.Failure? {
        return Failed(CredentialFault);
      }
      pooledModel.Model.AccessToken := Some(token.value);
      outcome := Acquired(pooledModel.Model);
    }

    /** The creation path: the factory builds a handle storing the name it was given back, then a token is attached. */
    method CreateModel(project: string, region: string, now: int,
                       created: Option<string>, credential: Result<string, CredentialError>)
      returns (outcome: AcquireOutcome)
      modifies TokenProvider
      ensures !outcome.Blocked?
      ensures outcome == Failed(FactoryFault) <==> created.None?
      ensures outcome == Failed(CredentialFault) <==>
                created.Some? && old(TokenProvider.NeedsRefresh(now)) && credential.Failure?
      ensures outcome.Acquired? ==>
                fresh(outcome.model) && outcome.model.ProjectId == project &&
                outcome.model.Region == region && created == Some(outcome.model.Model)
      ensures outcome.Acquired? ==>
                TokenProvider.CachedAccessToken.Some? &&
                outcome.model.AccessToken == TokenProvider.CachedAccessToken
      // a factory fault happens before any token is asked for; otherwise the token cache takes its step
      ensures created.None? ==> unchanged(TokenProvider)
      ensures created.Some? ==>
                (TokenProvider.CachedAccessToken, TokenProvider.TokenExpiry) == old(TokenProvider.StateAfter(now, credential))
    {
      if created.None? {
        return Failed(FactoryFault);
      }
      var generativeModel := new GenerativeModel(project, region, created.value);
      var token := TokenProvider.GetAccessToken(now, credential);
      if token.Failure? {
        return Failed(CredentialFault);
      }
      generativeModel.AccessToken := Some(token.value);
      outcome := Acquired(generativeModel);
    }

    /** The try block of acquire: reuse the first live idle entry, or create a new handle. */
    method ReuseOrCreate(key: string, project: string, region: string, now: int,
                         created: Option<string>, credential: Result<string, CredentialError>,
                         ghost q: seq<PooledModel>, ghost i: nat)
      returns (outcome: AcquireOutcome)
      requires Valid() && key in ModelPools
      requires ModelPools[key] == q && i == FirstLive(Snapshot(q), now, Options.ModelIdleTimeout)
      modifies this, TokenProvider, Reused(ModelPools[key], now, Options.ModelIdleTimeout)
      ensures Valid()
      ensures PoolSemaphores == old(PoolSemaphores) && CleanupTimerActive == old(CleanupTimerActive)
      ensures && ModelPools == old(ModelPools)[key := if i < |q| then q[i + 1..] else []]
              && !outcome.Blocked?
              && (i < |q| ==> q[i].LastUsed == now)
              && (outcome.Acquired? && i < |q| ==> outcome.model == q[i].Model)
              && (outcome.Acquired? && i == |q| ==>
                    fresh(outcome.model) && outcome.model.ProjectId == project &&
                    outcome.model.Region == region && created == Some(outcome.model.Model))
              && (outcome == Failed(FactoryFault) <==> i == |q| && created.None?)
              && (outcome == Failed(CredentialFault) <==>
                    (i < |q| || created.Some?) && old(TokenProvider.NeedsRefresh(now)) && credential.Failure?)
      ensures outcome.Acquired? ==>
                TokenProvider.CachedAccessToken.Some? &&
                outcome.model.AccessToken == TokenProvider.CachedAccessToken
      ensures outcome == Failed(FactoryFault) ==> unchanged(TokenProvider)
      ensures outcome != Failed(FactoryFault) ==>
                (TokenProvider.CachedAccessToken, TokenProvider.TokenExpiry) == old(TokenProvider.StateAfter(now, credential))
      ensures outcome == Failed(CredentialFault) && i < |q| ==> q[i].Model.AccessToken == old(q[i].Model.AccessToken)
    {
      var pooledModel := DequeueFirstLive(key, now, q, i);
      if pooledModel != null {
        outcome := ServeFromPool(pooledModel, now, credential);
      } else {
        outcome := CreateModel(project, region, now, created, credential);
      }
    }

    /** The catch block of acquire: the permit taken is released again, which cannot overflow. */
    method GiveBackPermit(key: string, ghost sems0: map<string, int>, ghost permits: int)
      requires Valid() && 0 < permits <= Options.MaxPoolSize && PoolSemaphores == sems0[key := permits - 1]
      modifies this
      ensures Valid()
      ensures PoolSemaphores == sems0[key := permits]
      ensures ModelPools == old(ModelPools) && CleanupTimerActive == old(CleanupTimerActive)
    {
      var full := ReleasePermit(key);
      UpdateTwice(sems0, key, permits - 1, permits);
    }

    /**
     * The guarded part of acquire, entered holding one of key's permits: reuse the first live
     * idle entry or create a new handle; when that throws, the permit is given back.
     */
    method ServeOnPermit(key: string, project: string, region: string, now: int,
                         created: Option<string>, credential: Result<string, CredentialError>,
                         ghost q: seq<PooledModel>, ghost i: nat,
                         ghost pools0: map<string, seq<PooledModel>>, ghost sems0: map<string, int>, ghost permits: int)
      returns (outcome: AcquireOutcome)
      requires Valid() && 0 < permits <= Options.MaxPoolSize
      requires ModelPools == pools0[key := q] && PoolSemaphores == sems0[key := permits - 1]
      requires i == FirstLive(Snapshot(q), now, Options.ModelIdleTimeout)
      modifies this, TokenProvider, Reused(ModelPools[key], now, Options.ModelIdleTimeout)
      ensures Valid()
      ensures CleanupTimerActive == old(CleanupTimerActive)
      ensures outcome.Failed? ==> PoolSemaphores == sems0[key := permits]
      ensures !outcome.Failed? ==> PoolSemaphores == sems0[key := permits - 1]
      ensures && ModelPools == pools0[key := if i < |q| then q[i + 1..] else []]
              && !outcome.Blocked?
              && (i < |q| ==> q[i].LastUsed == now)
              && (outcome.Acquired? && i < |q| ==> outcome.model == q[i].Model)
              && (outcome.Acquired? && i == |q| ==>
                    fresh(outcome.model) && outcome.model.ProjectId == project &&
                    outcome.model.Region == region && created == Some(outcome.model.Model))
              && (outcome == Failed(FactoryFault) <==> i == |q| && created.None?)
              && (outcome == Failed(CredentialFault) <==>
                    (i < |q| || created.Some?) && old(TokenProvider.NeedsRefresh(now)) && credential.Failure?)
      ensures outcome.Acquired? ==>
                TokenProvider.CachedAccessToken.Some? &&
                outcome.model.AccessToken == TokenProvider.CachedAccessToken
      ensures outcome == Failed(FactoryFault) ==> unchanged(TokenProvider)
      ensures outcome != Failed(FactoryFault) ==>
                (TokenProvider.CachedAccessToken, TokenProvider.TokenExpiry) == old(TokenProvider.StateAfter(now, credential))
      ensures outcome == Failed(CredentialFault) && i < |q| ==> q[i].Model.AccessToken == old(q[i].Model.AccessToken)
    {
      outcome := ReuseOrCreate(key, project, region, now, created, credential, q, i);
      UpdateTwice(pools0, key, q, if i < |q| then q[i + 1..] else []);
      if outcome.Failed? {
        // catch: give the permit back, then rethrow
        GiveBackPermit(key, sems0, permits);
      }
    }

    /**
     * Acquire a handle for (project, region, model). created is what the factory would
     * answer: None when it throws, Some(name) for a new handle storing that model name.
     * credential is what the credential fetch would answer if the token cache asks for it.
     */
    method GetModel(project: string, region: string, model: string, now: int,
                    created: Option<string>, credential: Result<string, CredentialError>)
      returns (outcome: AcquireOutcome)
      requires Valid()
      modifies this, TokenProvider,
               Reused(Queue(GetPoolKey(project, region, model)), now, Options.ModelIdleTimeout)
      ensures Valid()
      ensures CleanupTimerActive == old(CleanupTimerActive)
      // only key's queue and permits change. With no permit free nothing happens; otherwise
      // the queue is drained up to and including the first live entry (or emptied), and the
      // permit taken is kept by a success and given back by a failure
      ensures var key := GetPoolKey(project, region, model);
              var q := old(Queue(key));
              var i := old(FirstLive(Snapshot(Queue(key)), now, Options.ModelIdleTimeout));
              && (outcome.Blocked? <==> old(Permits(key)) == 0)
              && (outcome.Blocked? ==> ModelPools == old(ModelPools)[key := q])
              && (!outcome.Blocked? ==> ModelPools == old(ModelPools)[key := if i < |q| then q[i + 1..] else []])
              && (outcome.Acquired? ==> PoolSemaphores == old(PoolSemaphores)[key := old(Permits(key)) - 1])
              && (!outcome.Acquired? ==> PoolSemaphores == old(PoolSemaphores)[key := old(Permits(key))])
      // a hit reuses the first live entry's handle and re-stamps that entry (the only entry
      // the frame lets it write);
      // a miss builds a new handle through the factory
      ensures var key := GetPoolKey(project, region, model);
              var q := old(Queue(key));
              var i := old(FirstLive(Snapshot(Queue(key)), now, Options.ModelIdleTimeout));
              && (!outcome.Blocked? && i < |q| ==> q[i].LastUsed == now)
              && (outcome.Acquired? && i < |q| ==> outcome.model == q[i].Model)
              && (outcome.Acquired? && i == |q| ==>
                    fresh(outcome.model) && outcome.model.ProjectId == project &&
                    outcome.model.Region == region && created == Some(outcome.model.Model))
              && (outcome == Failed(FactoryFault) <==>
                    old(Permits(key)) > 0 && i == |q| && created.None?)
              && (outcome == Failed(CredentialFault) <==>
                    old(Permits(key)) > 0 && (i < |q| || created.Some?) &&
                    old(TokenProvider.NeedsRefresh(now)) && credential.Failure?)
              && (outcome == Failed(CredentialFault) && i < |q| ==> q[i].Model.AccessToken == old(q[i].Model.AccessToken))
      // the handed-out handle carries the token the cache now holds
      ensures outcome.Acquired? ==>
                TokenProvider.CachedAccessToken.Some? &&
                outcome.model.AccessToken == TokenProvider.CachedAccessToken
      // the token cache is left alone when no permit is free or the factory throws; otherwise
      // it takes its step (a failed fetch leaves a reused handle's token as it was, above)
      ensures outcome.Blocked? || outcome == Failed(FactoryFault) ==> unchanged(TokenProvider)
      ensures !outcome.Blocked? && outcome != Failed(FactoryFault) ==>
                (TokenProvider.CachedAccessToken, TokenProvider.TokenExpiry) == old(TokenProvider.StateAfter(now, credential))
    {
      outcome := AcquireUnderKey(GetPoolKey(project, region, model), project, region, now, created, credential);
    }

    /** The body of acquire once the key is derived. */
    method AcquireUnderKey(key: string, project: string, region: string, now: int,
                           created: Option<string>, credential: Result<string, CredentialError>)
      returns (outcome: AcquireOutcome)
      requires Valid()
      modifies this, TokenProvider,
               Reused(Queue(key), now, Options.ModelIdleTimeout)
      ensures Valid()
      ensures CleanupTimerActive == old(CleanupTimerActive)
      ensures var q := old(Queue(key));
              var i := old(FirstLive(Snapshot(Queue(key)), now, Options.ModelIdleTimeout));
              && (outcome.Blocked? <==> old(Permits(key)) == 0)
              && (outcome.Blocked? ==> ModelPools == old(ModelPools)[key := q])
              && (!outcome.Blocked? ==> ModelPools == old(ModelPools)[key := if i < |q| then q[i + 1..] else []])
              && (outcome.Acquired? ==> PoolSemaphores == old(PoolSemaphores)[key := old(Permits(key)) - 1])
              && (!outcome.Acquired? ==> PoolSemaphores == old(PoolSemaphores)[key := old(Permits(key))])
      ensures var q := old(Queue(key));
              var i := old(FirstLive(Snapshot(Queue(key)), now, Options.ModelIdleTimeout));
              && (!outcome.Blocked? && i < |q| ==> q[i].LastUsed == now)
              && (outcome.Acquired? && i < |q| ==> outcome.model == q[i].Model)
              && (outcome.Acquired? && i == |q| ==>
                    fresh(outcome.model) && outcome.model.ProjectId == project &&
                    outcome.model.Region == region && created == Some(outcome.model.Model))
              && (outcome == Failed(FactoryFault) <==>
                    old(Permits(key)) > 0 && i == |q| && created.None?)
              && (outcome == Failed(CredentialFault) <==>
                    old(Permits(key)) > 0 && (i < |q| || created.Some?) &&
                    old(TokenProvider.NeedsRefresh(now)) && credential.Failure?)
              && (outcome == Failed(CredentialFault) && i < |q| ==> q[i].Model.AccessToken == old(q[i].Model.AccessToken))
      ensures outcome.Acquired? ==>
                TokenProvider.CachedAccessToken.Some? &&
                outcome.model.AccessToken == TokenProvider.CachedAccessToken
      ensures outcome.Blocked? || outcome == Failed(FactoryFault) ==> unchanged(TokenProvider)
      ensures !outcome.Blocked? && outcome != Failed(FactoryFault) ==>
                (TokenProvider.CachedAccessToken, TokenProvider.TokenExpiry) == old(TokenProvider.StateAfter(now, credential))
    {
      ghost var q := Queue(key);
      ghost var i := FirstLive(Snapshot(q), now, Options.ModelIdleTimeout);
      ghost var permits := Permits(key);
      var entered := TakePermit(key);
      if !entered {
        return Blocked;
      }
      assert FirstLive(Snapshot(q), now, Options.ModelIdleTimeout) == i;
      outcome := ServeOnPermit(key, project, region, now, created, credential, q, i,
                               old(ModelPools), old(PoolSemaphores), permits);
    }

    /**
     * The enqueue step of giving a handle back: below MaxPoolSize, key's queue gets a new
     * entry for model stamped now at its end; a full queue is left as it is.
     */
    method Repool(key: string, model: GenerativeModel, now: int)
      requires Valid() && key in ModelPools && key in PoolSemaphores
      modifies this
      ensures Valid()
      ensures PoolSemaphores == old(PoolSemaphores) && CleanupTimerActive == old(CleanupTimerActive)
      ensures var q := old(ModelPools[key]);
              && (|q| < Options.MaxPoolSize ==>
                    |ModelPools[key]| == |q| + 1 && ModelPools == old(ModelPools)[key := q + [ModelPools[key][|q|]]] &&
                    fresh(ModelPools[key][|q|]) && ModelPools[key][|q|].Model == model &&
                    ModelPools[key][|q|].PoolKey == key && ModelPools[key][|q|].LastUsed == now)
              && (|q| >= Options.MaxPoolSize ==> ModelPools == old(ModelPools))
    {
      if |ModelPools[key]| < Options.MaxPoolSize {
        var pooledModel := new PooledModel(model, key, now);
        ModelPools := ModelPools[key := ModelPools[key] + [pooledModel]];
      }
    }

    /**
     * Give a handle back under the key derived from the handle itself. The handle is
     * re-pooled as a new entry stamped now when its queue is below MaxPoolSize, and a
     * permit is released either way. errorLogged reports the SemaphoreFullException that
     * the release raises when all permits are already free; it is caught and logged.
     */
    method ReturnModel(model: GenerativeModel, now: int) returns (errorLogged: bool)
      requires Valid()
      modifies this
      ensures Valid()
      ensures CleanupTimerActive == old(CleanupTimerActive)
      ensures var key := GetPoolKeyFromModel(model);
              var q := old(Queue(key));
              && key in ModelPools
              && (|q| < Options.MaxPoolSize ==>
                    |ModelPools[key]| == |q| + 1 && ModelPools == old(ModelPools)[key := q + [ModelPools[key][|q|]]] &&
                    fresh(ModelPools[key][|q|]) && ModelPools[key][|q|].Model == model &&
                    ModelPools[key][|q|].PoolKey == key && ModelPools[key][|q|].LastUsed == now)
              && (|q| >= Options.MaxPoolSize ==> ModelPools == old(ModelPools)[key := q])
              && PoolSemaphores == old(PoolSemaphores)[key := Min(Options.MaxPoolSize, old(Permits(key)) + 1)]
              && (errorLogged <==> old(Permits(key)) == Options.MaxPoolSize)
    {
      errorLogged := ReturnUnderKey(GetPoolKeyFromModel(model), model, now);
    }

    /** The body of give-back once the key is derived: re-pool below MaxPoolSize, then release a permit. */
    method ReturnUnderKey(key: string, model: GenerativeModel, now: int) returns (errorLogged: bool)
      requires Valid()
      modifies this
      ensures Valid()
      ensures CleanupTimerActive == old(CleanupTimerActive)
      ensures var q := old(Queue(key));
              && key in ModelPools
              && (|q| < Options.MaxPoolSize ==>
                    |ModelPools[key]| == |q| + 1 && ModelPools == old(ModelPools)[key := q + [ModelPools[key][|q|]]] &&
                    fresh(ModelPools[key][|q|]) && ModelPools[key][|q|].Model == model &&
                    ModelPools[key][|q|].PoolKey == key && ModelPools[key][|q|].LastUsed == now)
              && (|q| >= Options.MaxPoolSize ==> ModelPools == old(ModelPools)[key := q])
              && PoolSemaphores == old(PoolSemaphores)[key := Min(Options.MaxPoolSize, old(Permits(key)) + 1)]
              && (errorLogged <==> old(Permits(key)) == Options.MaxPoolSize)
    {
      ghost var q := Queue(key);
      ghost var permits := Permits(key);
      GetOrAddPool(key);
      Repool(key, model, now);
      UpdateTwice(old(ModelPools), key, q, ModelPools[key]);
      errorLogged := ReleasePermit(key);
      UpdateTwice(old(PoolSemaphores), key, permits, Min(Options.MaxPoolSize, permits + 1));
    }

    /** What a cleanup pass at now would make of a queue with snapshot s: the rewritten queue and the number of evictions. */
    ghost function PlanOf(s: seq<Stamped>, now: int): CleanupPlan
    {
      CleanupPlan(Entries(CleanedQueue(s, now, Options.ModelIdleTimeout, Options.MinPoolSize)),
                  EvictCount(s, now, Options.ModelIdleTimeout, Options.MinPoolSize))
    }

    /**
     * A cleanup pass raises SemaphoreFullException exactly when it gets in and its releases
     * (one per eviction, then the lock's own) run past MaxPoolSize.
     */
    predicate Overflows(oldPermits: int, plan: CleanupPlan)
    {
      oldPermits > 0 && oldPermits + plan.evictions > Options.MaxPoolSize
    }

    /**
     * One key's cleanup pass on the registries, following plan: with no permit free the pass
     * skips the key; otherwise the queue becomes the planned one, the permits grow by one per
     * eviction up to MaxPoolSize, and the pass crashes when they overflow.
     */
    function CleanStep(pools: map<string, seq<PooledModel>>, sems: map<string, int>, key: string,
                       plan: CleanupPlan): Sweep
      requires key in sems
    {
      if sems[key] == 0 then Sweep(pools, sems, false)
      else
        Sweep(pools[key := plan.queue], sems[key := Min(Options.MaxPoolSize, sems[key] + plan.evictions)],
              Overflows(sems[key], plan))
    }

    /**
     * The first n passes of the timer callback, over the keys of order in that order,
     * starting from pools and sems and following each key's plan in plans; after a pass that
     * crashes no further key is visited. A key without permits or without a plan is passed
     * over (the enumeration of the registry yields only registered keys).
     */
    function SweepKeys(pools: map<string, seq<PooledModel>>, sems: map<string, int>,
                       plans: map<string, CleanupPlan>, order: seq<string>, n: nat): Sweep
      requires n <= |order|
    {
      if n == 0 then Sweep(pools, sems, false)
      else
        var r := SweepKeys(pools, sems, plans, order, n - 1);
        var key := order[n - 1];
        if r.crashed || key !in r.sems || key !in plans then r else CleanStep(r.pools, r.sems, key, plans[key])
    }

    /** No key comes twice in order. */
    predicate Distinct(order: seq<string>)
    {
      forall i, j :: 0 <= i < j < |order| ==> order[i] != order[j]
    }

    /** order lists each key of keys exactly once, as the enumeration of a dictionary does. */
    predicate Enumerates(order: seq<string>, keys: set<string>)
    {
      && (forall k :: k in keys ==> k in order)
      && (forall i :: 0 <= i < |order| ==> order[i] in keys)
      && Distinct(order)
    }

    /** A key the first n passes do not visit keeps its queue and its permits. */
    lemma {:induction false} SweepLeavesOthers(pools: map<string, seq<PooledModel>>, sems: map<string, int>,
                                               plans: map<string, CleanupPlan>, order: seq<string>, n: nat, k: string)
      requires n <= |order| && forall i :: 0 <= i < n ==> order[i] != k
      ensures var r := SweepKeys(pools, sems, plans, order, n);
              (k in r.pools <==> k in pools) && (k in pools ==> r.pools[k] == pools[k])
      ensures var r := SweepKeys(pools, sems, plans, order, n);
              (k in r.sems <==> k in sems) && (k in sems ==> r.sems[k] == sems[k])
    {
      if n > 0 {
        SweepLeavesOthers(pools, sems, plans, order, n - 1, k);
      }
    }

    /** Once a pass has crashed, the passes after it change nothing. */
    lemma {:induction false} SweepStopsAtCrash(pools: map<string, seq<PooledModel>>, sems: map<string, int>,
                                               plans: map<string, CleanupPlan>, order: seq<string>, n: nat, m: nat)
      requires n <= m <= |order|
      requires SweepKeys(pools, sems, plans, order, n).crashed
      ensures SweepKeys(pools, sems, plans, order, m) == SweepKeys(pools, sems, plans, order, n)
      decreases m
    {
      if n != m {
        SweepStopsAtCrash(pools, sems, plans, order, n, m - 1);
      }
    }

    /** A key without a free permit keeps its queue and its permits through every pass, its own included. */
    lemma {:induction false} SweepSkipsLockedKey(pools: map<string, seq<PooledModel>>, sems: map<string, int>,
                                                 plans: map<string, CleanupPlan>, order: seq<string>, n: nat, k: string)
      requires n <= |order| && k in pools && k in sems && sems[k] == 0
      ensures var r := SweepKeys(pools, sems, plans, order, n);
              k in r.pools && r.pools[k] == pools[k] && k in r.sems && r.sems[k] == 0
    {
      if n > 0 {
        SweepSkipsLockedKey(pools, sems, plans, order, n - 1, k);
      }
    }

    /**
     * A pass over key keeps the invariant of Valid when its plan comes from a snapshot of the
     * queue key had in registries pools0 that keep it: the rewritten queue holds entries of
     * that queue, and no more of them; the permit count stays in [0, MaxPoolSize].
     */
    lemma CleanStepKeepsRegistries(pools0: map<string, seq<PooledModel>>, sems0: map<string, int>,
                                   pools: map<string, seq<PooledModel>>, sems: map<string, int>, key: string,
                                   snapshot: seq<Stamped>, now: int)
      requires Registries(pools0, sems0) && Registries(pools, sems) && key in pools0 && key in sems
      requires Entries(snapshot) == pools0[key]
      ensures var r := CleanStep(pools, sems, key, PlanOf(snapshot, now));
              Registries(r.pools, r.sems)
    {
      PlanStaysInSnapshot(snapshot, now);
    }

    /** The passes keep the invariant of Valid when every plan is the one of its key's queue. */
    lemma {:induction false} SweepKeepsRegistries(pools: map<string, seq<PooledModel>>, sems: map<string, int>,
                                                  plans: map<string, CleanupPlan>, snaps: map<string, seq<Stamped>>,
                                                  now: int, order: seq<string>, n: nat)
      requires Registries(pools, sems) && n <= |order|
      requires forall k :: k in plans ==> k in pools && k in snaps && Entries(snaps[k]) == pools[k] && plans[k] == PlanOf(snaps[k], now)
      ensures Registries(SweepKeys(pools, sems, plans, order, n).pools, SweepKeys(pools, sems, plans, order, n).sems)
    {
      if n > 0 {
        SweepKeepsRegistries(pools, sems, plans, snaps, now, order, n - 1);
        var r := SweepKeys(pools, sems, plans, order, n - 1);
        var key := order[n - 1];
        if !r.crashed && key in r.sems && key in plans {
          CleanStepKeepsRegistries(pools, sems, r.pools, r.sems, key, snaps[key], now);
        }
      }
    }

    /**
     * Visiting distinct keys, passes that did not crash cleaned each visited key from its own
     * queue and permits as they were before the first pass.
     */
    lemma {:induction false} SweepCleansEach(pools: map<string, seq<PooledModel>>, sems: map<string, int>,
                                             plans: map<string, CleanupPlan>, order: seq<string>, n: nat, j: nat)
      requires Distinct(order) && j < n <= |order| && order[j] in pools && order[j] in sems && order[j] in plans
      ensures var r := SweepKeys(pools, sems, plans, order, n);
              var step := CleanStep(pools, sems, order[j], plans[order[j]]);
              !r.crashed ==> && order[j] in r.pools && r.pools[order[j]] == step.pools[order[j]]
                             && order[j] in r.sems && r.sems[order[j]] == step.sems[order[j]]
    {
      if j == n - 1 {
        SweepLeavesOthers(pools, sems, plans, order, n - 1, order[j]);
      } else {
        SweepCleansEach(pools, sems, plans, order, n - 1, j);
      }
    }

    /** Visiting distinct keys, a pass that overflows makes the sweep crash. */
    lemma {:induction false} OverflowCrashesSweep(pools: map<string, seq<PooledModel>>, sems: map<string, int>,
                                                  plans: map<string, CleanupPlan>, order: seq<string>, n: nat, j: nat)
      requires Distinct(order) && j < n <= |order| && order[j] in sems && order[j] in plans
      requires Overflows(sems[order[j]], plans[order[j]])
      ensures SweepKeys(pools, sems, plans, order, n).crashed
    {
      if j == n - 1 {
        SweepLeavesOthers(pools, sems, plans, order, n - 1, order[j]);
      } else {
        OverflowCrashesSweep(pools, sems, plans, order, n - 1, j);
      }
    }

    /** Visiting distinct keys, a sweep crashes only at a key whose pass overflows. */
    lemma {:induction false} CrashHasCause(pools: map<string, seq<PooledModel>>, sems: map<string, int>,
                                           plans: map<string, CleanupPlan>, order: seq<string>, n: nat)
      requires Distinct(order) && n <= |order|
      requires SweepKeys(pools, sems, plans, order, n).crashed
      ensures exists j :: 0 <= j < n && order[j] in sems && order[j] in plans && Overflows(sems[order[j]], plans[order[j]])
    {
      if SweepKeys(pools, sems, plans, order, n - 1).crashed {
        CrashHasCause(pools, sems, plans, order, n - 1);
      } else {
        SweepLeavesOthers(pools, sems, plans, order, n - 1, order[n - 1]);
        assert Overflows(sems[order[n - 1]], plans[order[n - 1]]);
      }
    }

    /**
     * The drain loop of cleanup: empties a queue into its expired and its live entries, each
     * in queue order and carrying the LastUsed stamp it was sorted and tested by.
     */
    method Drain(pool: seq<PooledModel>, now: int)
      returns (modelsToRemove: seq<Stamped>, modelsToKeep: seq<Stamped>)
      ensures modelsToRemove == Expired(Snapshot(pool), now, Options.ModelIdleTimeout)
      ensures modelsToKeep == Live(Snapshot(pool), now, Options.ModelIdleTimeout)
    {
      ghost var snapshot := Snapshot(pool);
      modelsToRemove, modelsToKeep := [], [];
      var queue := pool;
      ghost var j := 0;
      while queue != []
        invariant 0 <= j <= |pool| && queue == pool[j..]
        invariant modelsToRemove == Expired(snapshot[..j], now, Options.ModelIdleTimeout)
        invariant modelsToKeep == Live(snapshot[..j], now, Options.ModelIdleTimeout)
        decreases |queue|
      {
        var pooledModel := queue[0];
        queue := queue[1..];
        var stamped := Stamped(pooledModel, pooledModel.LastUsed);
        assert snapshot[..j + 1][..j] == snapshot[..j] && snapshot[..j + 1][j] == stamped;
        if pooledModel.IsExpired(now, Options.ModelIdleTimeout) {
          modelsToRemove := modelsToRemove + [stamped];
        } else {
          modelsToKeep := modelsToKeep + [stamped];
        }
        j := j + 1;
      }
      assert snapshot[..j] == snapshot;
    }

    /** Drains a queue and sorts its expired entries oldest first. */
    method DrainAndSort(pool: seq<PooledModel>, now: int, ghost snapshot: seq<Stamped>)
      returns (modelsToKeep: seq<Stamped>, sorted: seq<Stamped>)
      requires snapshot == Snapshot(pool)
      ensures modelsToKeep == Live(snapshot, now, Options.ModelIdleTimeout)
      ensures sorted == EvictionOrder(snapshot, now, Options.ModelIdleTimeout)
      ensures |modelsToKeep| + |sorted| == |snapshot|
    {
      var modelsToRemove;
      modelsToRemove, modelsToKeep := Drain(pool, now);
      sorted := SortByLastUsed(modelsToRemove);
      PartitionIsPermutation(snapshot, now, Options.ModelIdleTimeout);
    }

    /**
     * The queue-rewriting part of a cleanup pass: drain, sort the expired entries oldest
     * first, put back the live entries and then the expired ones beyond the MinPoolSize
     * allowance. s is the queue with its stamps as the pass finds it; evictions is the
     * number of expired entries dropped.
     */
    method RebuildQueue(pool: seq<PooledModel>, now: int, ghost s: seq<Stamped>)
      returns (queue: seq<PooledModel>, evictions: nat)
      requires s == Snapshot(pool)
      ensures CleanupPlan(queue, evictions) == PlanOf(s, now)
    {
      var modelsToKeep, sorted := DrainAndSort(pool, now, s);
      var currentPoolSize := |modelsToKeep| + |sorted|;
      var maxToRemove := Max(0, currentPoolSize - Options.MinPoolSize);
      // Take and Skip stop at the end of the list
      evictions := Min(maxToRemove, |sorted|);
      var modelsToKeepFromExpired := sorted[evictions..];
      queue := PutBack(modelsToKeep, modelsToKeepFromExpired);
      SplitIsPlan(s, now, modelsToKeep, sorted, evictions);
    }

    /** Live entries, then the sorted expired ones past the Take(maxToRemove) cut, are the planned queue. */
    lemma SplitIsPlan(s: seq<Stamped>, now: int, kept: seq<Stamped>, sorted: seq<Stamped>, evictions: nat)
      requires kept == Live(s, now, Options.ModelIdleTimeout)
      requires sorted == EvictionOrder(s, now, Options.ModelIdleTimeout)
      requires |kept| + |sorted| == |s|
      requires evictions == Min(Max(0, |kept| + |sorted| - Options.MinPoolSize), |sorted|)
      ensures evictions <= |sorted|
      ensures CleanupPlan(Entries(kept + sorted[evictions..]), evictions) == PlanOf(s, now)
    {
      assert evictions == EvictCount(s, now, Options.ModelIdleTimeout, Options.MinPoolSize);
      assert kept + sorted[evictions..] == CleanedQueue(s, now, Options.ModelIdleTimeout, Options.MinPoolSize);
    }

    /** A planned queue holds no more entries than the queue it was planned from, and only its entries. */
    lemma PlanStaysInSnapshot(snapshot: seq<Stamped>, now: int)
      ensures |PlanOf(snapshot, now).queue| <= |snapshot|
      ensures forall e :: e in PlanOf(snapshot, now).queue ==> e in Entries(snapshot)
    {
      CleanedQueueIsSubQueue(snapshot, now, Options.ModelIdleTimeout, Options.MinPoolSize);
      EntriesStayIn(CleanedQueue(snapshot, now, Options.ModelIdleTimeout, Options.MinPoolSize), snapshot);
    }

    /** The two re-enqueue loops of cleanup, into the drained queue: first kept, then retained. */
    static method PutBack(kept: seq<Stamped>, retained: seq<Stamped>) returns (queue: seq<PooledModel>)
      ensures queue == Entries(kept + retained)
    {
      queue := [];
      for k := 0 to |kept|
        invariant |queue| == k && forall t :: 0 <= t < k ==> queue[t] == kept[t].entry
      {
        queue := queue + [kept[k].entry];
      }
      for k := 0 to |retained|
        invariant |queue| == |kept| + k
        invariant forall t :: 0 <= t < |kept| ==> queue[t] == kept[t].entry
        invariant forall t :: 0 <= t < k ==> queue[|kept| + t] == retained[t].entry
      {
        queue := queue + [retained[k].entry];
      }
      assert forall t :: 0 <= t < |queue| ==> queue[t] == (kept + retained)[t].entry;
    }

    /**
     * The release part of a cleanup pass over key, entered holding the cleanup lock, on the
     * permit counts sems: one release per evicted entry, then (finally) the lock's own. A
     * release that finds every permit free raises SemaphoreFullException, which skips the
     * remaining ones of the loop; the finally release then raises it again.
     */
    method ReleaseAfterCleanup(permits: int, evictions: nat) returns (released: int, crashed: bool)
      requires 0 <= permits < Options.MaxPoolSize
      ensures released == Min(Options.MaxPoolSize, permits + evictions + 1)
      ensures crashed <==> permits + evictions + 1 > Options.MaxPoolSize
    {
      released := permits;
      var i := 0;
      crashed := false;
      while i < evictions
        invariant 0 <= i <= evictions
        invariant released == Min(Options.MaxPoolSize, permits + i)
      {
        if released == Options.MaxPoolSize {
          crashed := true;
          break;
        }
        released := released + 1;
        i := i + 1;
      }
      assert crashed ==> permits + i >= Options.MaxPoolSize && i < evictions;
      if released == Options.MaxPoolSize {
        crashed := true;
      } else {
        released := released + 1;
      }
    }

    /**
     * One key's cleanup pass on the registries pools and sems: take a permit as the cleanup
     * lock, skipping the key when none is free; rewrite the queue; release. crashed reports
     * the SemaphoreFullException that escapes the pass; by then the queue has already been
     * rewritten.
     */
    method CleanupPool(pools: map<string, seq<PooledModel>>, sems: map<string, int>, key: string, now: int,
                       ghost plan: CleanupPlan)
      returns (cleanedPools: map<string, seq<PooledModel>>, cleanedSems: map<string, int>, crashed: bool)
      requires key in pools && key in sems && 0 <= sems[key] <= Options.MaxPoolSize
      requires plan == PlanOf(Snapshot(pools[key]), now)
      ensures Sweep(cleanedPools, cleanedSems, crashed) == CleanStep(pools, sems, key, plan)
    {
      // the semaphore is looked up with GetOrAdd; a wait that finds no permit times out
      if sems[key] == 0 {
        return pools, sems, false;
      }
      var queue, evictions := RebuildQueue(pools[key], now, Snapshot(pools[key]));
      cleanedPools, cleanedSems, crashed := CompletePass(pools, sems, key, queue, evictions);
    }

    /**
     * The end of a pass over key that got in and planned queue and evictions: the queue is
     * replaced, then the pass releases one permit per eviction and the lock's own.
     */
    method CompletePass(pools: map<string, seq<PooledModel>>, sems: map<string, int>, key: string,
                        queue: seq<PooledModel>, evictions: nat)
      returns (cleanedPools: map<string, seq<PooledModel>>, cleanedSems: map<string, int>, crashed: bool)
      requires key in sems && 0 < sems[key] <= Options.MaxPoolSize
      ensures Sweep(cleanedPools, cleanedSems, crashed) == CleanStep(pools, sems, key, CleanupPlan(queue, evictions))
    {
      cleanedPools := pools[key := queue];
      var permits;
      permits, crashed := ReleaseAfterCleanup(sems[key] - 1, evictions);
      cleanedSems := sems[key := permits];
    }

    /**
     * key is registered with a permit count in [0, MaxPoolSize], has a snapshot as long as its
     * queue, and its plan is the one of that snapshot at time now.
     */
    ghost predicate KeyReady(pools: map<string, seq<PooledModel>>, sems: map<string, int>,
                             plans: map<string, CleanupPlan>, snaps: map<string, seq<Stamped>>, now: int, key: string)
    {
      && key in pools && key in sems && key in plans && 0 <= sems[key] <= Options.MaxPoolSize
      && key in snaps && |snaps[key]| == |pools[key]| && plans[key] == PlanOf(snaps[key], now)
    }

    /**
     * One turn of the timer callback's loop: the pass over the i-th key of order, from the
     * registries the first i passes left, none of which crashed.
     */
    method CleanupNext(pools: map<string, seq<PooledModel>>, sems: map<string, int>, now: int, order: seq<string>,
                       ghost plans: map<string, CleanupPlan>, ghost snaps: map<string, seq<Stamped>>, i: nat,
                       curPools: map<string, seq<PooledModel>>, curSems: map<string, int>)
      returns (nextPools: map<string, seq<PooledModel>>, nextSems: map<string, int>, crashed: bool)
      requires Distinct(order) && i < |order| && KeyReady(pools, sems, plans, snaps, now, order[i])
      requires forall j :: 0 <= j < |pools[order[i]]| ==>
                 snaps[order[i]][j] == Stamped(pools[order[i]][j], pools[order[i]][j].LastUsed)
      requires Sweep(curPools, curSems, false) == SweepKeys(pools, sems, plans, order, i)
      ensures Sweep(nextPools, nextSems, crashed) == SweepKeys(pools, sems, plans, order, i + 1)
    {
      var key := order[i];
      assert Snapshot(pools[key]) == snaps[key];
      SweepLeavesOthers(pools, sems, plans, order, i, key);
      nextPools, nextSems, crashed := CleanupPool(curPools, curSems, key, now, plans[key]);
    }

    /**
     * The loop of the timer callback on the registries pools and sems: one cleanup pass per
     * key, in the dictionary's enumeration order, each following the plan of the key's queue.
     * A SemaphoreFullException escaping a key's pass ends the loop.
     */
    method CleanupAll(pools: map<string, seq<PooledModel>>, sems: map<string, int>, now: int, order: seq<string>,
                      ghost plans: map<string, CleanupPlan>, ghost snaps: map<string, seq<Stamped>>)
      returns (cleanedPools: map<string, seq<PooledModel>>, cleanedSems: map<string, int>, outcome: CleanupOutcome)
      requires Distinct(order)
      requires forall i {:trigger KeyReady(pools, sems, plans, snaps, now, order[i])} ::
                 0 <= i < |order| ==> KeyReady(pools, sems, plans, snaps, now, order[i])
      requires forall k, j :: k in pools && k in snaps && 0 <= j < |pools[k]| && j < |snaps[k]| ==>
                 snaps[k][j] == Stamped(pools[k][j], pools[k][j].LastUsed)
      ensures Sweep(cleanedPools, cleanedSems, outcome == SemaphoreFull) == SweepKeys(pools, sems, plans, order, |order|)
    {
      cleanedPools, cleanedSems := pools, sems;
      var crashed := false;
      var i := 0;
      while i < |order| && !crashed
        invariant 0 <= i <= |order|
        invariant Sweep(cleanedPools, cleanedSems, crashed) == SweepKeys(pools, sems, plans, order, i)
      {
        cleanedPools, cleanedSems, crashed := CleanupNext(pools, sems, now, order, plans, snaps, i, cleanedPools, cleanedSems);
        i := i + 1;
      }
      if crashed {
        SweepStopsAtCrash(pools, sems, plans, order, i, |order|);
        outcome := SemaphoreFull;
      } else {
        outcome := Completed;
      }
    }

    /**
     * Snapshots taken of every queue of pools carry the entries of the queue, in order, with
     * their current stamps.
     */
    lemma SnapshotsTaken(pools: map<string, seq<PooledModel>>, snaps: map<string, seq<Stamped>>)
      requires snaps.Keys == pools.Keys && forall k :: k in snaps ==> snaps[k] == Snapshot(pools[k])
      ensures forall k :: k in snaps ==> Entries(snaps[k]) == pools[k]
      ensures forall k, j :: k in pools && k in snaps && 0 <= j < |pools[k]| && j < |snaps[k]| ==>
                snaps[k][j] == Stamped(pools[k][j], pools[k][j].LastUsed)
    {
      forall k | k in snaps
        ensures Entries(snaps[k]) == pools[k]
      {
        EntriesOfSnapshot(pools[k]);
      }
    }

    /**
     * What the timer callback's loop needs, when each key's plan comes from a snapshot of its
     * queue: every key of order is ready for its pass, and the passes keep the invariant of Valid.
     */
    lemma CleanupPrepared(pools: map<string, seq<PooledModel>>, sems: map<string, int>,
                          snaps: map<string, seq<Stamped>>, plans: map<string, CleanupPlan>, now: int, order: seq<string>)
      requires Registries(pools, sems) && Enumerates(order, pools.Keys)
      requires snaps.Keys == pools.Keys && forall k :: k in snaps ==> Entries(snaps[k]) == pools[k]
      requires plans.Keys == snaps.Keys && forall k :: k in snaps ==> plans[k] == PlanOf(snaps[k], now)
      ensures forall i {:trigger KeyReady(pools, sems, plans, snaps, now, order[i])} ::
                0 <= i < |order| ==> KeyReady(pools, sems, plans, snaps, now, order[i])
      ensures var r := SweepKeys(pools, sems, plans, order, |order|);
              Registries(r.pools, r.sems)
    {
      SweepKeepsRegistries(pools, sems, plans, snaps, now, order, |order|);
    }

    /**
     * The timer callback's work on the values of the registries: each key's plan is the one of
     * its queue as the callback starts, and the registries it leaves keep the invariant of Valid.
     */
    method CleanupRegistries(pools: map<string, seq<PooledModel>>, sems: map<string, int>, now: int, order: seq<string>)
      returns (cleanedPools: map<string, seq<PooledModel>>, cleanedSems: map<string, int>, outcome: CleanupOutcome,
               ghost plans: map<string, CleanupPlan>)
      requires Registries(pools, sems) && Enumerates(order, pools.Keys)
      ensures Registries(cleanedPools, cleanedSems)
      ensures plans.Keys == pools.Keys
      ensures forall k :: k in plans ==> plans[k] == old(PlanOf(Snapshot(pools[k]), now))
      ensures Sweep(cleanedPools, cleanedSems, outcome == SemaphoreFull) == SweepKeys(pools, sems, plans, order, |order|)
    {
      ghost var snaps := map k | k in pools :: Snapshot(pools[k]);
      plans := map k | k in snaps :: PlanOf(snaps[k], now);
      SnapshotsTaken(pools, snaps);
      CleanupPrepared(pools, sems, snaps, plans, now, order);
      cleanedPools, cleanedSems, outcome := CleanupAll(pools, sems, now, order, plans, snaps);
    }

    /**
     * The timer callback, visiting the keys in the enumeration order order. Its passes touch
     * nothing but the two registries, so the loop runs on their values, which are stored
     * back at the end (also when a SemaphoreFullException ends it early).
     */
    method CleanupIdleModels(now: int, order: seq<string>) returns (outcome: CleanupOutcome, ghost plans: map<string, CleanupPlan>)
      requires Valid() && Enumerates(order, ModelPools.Keys)
      modifies this
      ensures Valid()
      ensures CleanupTimerActive == old(CleanupTimerActive)
      ensures plans.Keys == old(ModelPools.Keys)
      ensures forall k :: k in plans ==> plans[k] == old(PlanOf(Snapshot(ModelPools[k]), now))
      ensures Sweep(ModelPools, PoolSemaphores, outcome == SemaphoreFull) ==
              SweepKeys(old(ModelPools), old(PoolSemaphores), plans, order, |order|)
    {
      var pools, sems;
      pools, sems, outcome, plans := CleanupRegistries(ModelPools, PoolSemaphores, now, order);
      ModelPools, PoolSemaphores := pools, sems;
    }

    /** Stops the cleanup timer and empties every idle queue; the registries keep their keys. */
    method Dispose()
      requires Valid()
      modifies this
      ensures Valid()
      ensures !CleanupTimerActive
      ensures ModelPools.Keys == old(ModelPools.Keys)
      ensures forall k :: k in ModelPools ==> ModelPools[k] == []
      ensures PoolSemaphores == old(PoolSemaphores)
    {
      CleanupTimerActive := false;
      var remaining := ModelPools.Keys;
      while remaining != {}
        invariant Valid() && !CleanupTimerActive
        invariant ModelPools.Keys == old(ModelPools.Keys) && PoolSemaphores == old(PoolSemaphores)
        invariant remaining <= ModelPools.Keys
        invariant forall k :: k in ModelPools && k !in remaining ==> ModelPools[k] == []
        decreases remaining
      {
        var key :| key in remaining;
        ModelPools := ModelPools[key := []];
        remaining := remaining - {key};
      }
    }
  }
}
