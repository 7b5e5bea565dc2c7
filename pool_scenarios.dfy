/**
 * Two runs of the pool under its default options that show behaviour of the code as
 * written: acquire and release disagree on the key when the requested model name carries
 * the "models/" prefix, and a cleanup pass can raise SemaphoreFullException out of the
 * timer callback after it has already rewritten the queue.
 */
module PoolScenarios {
  import opened Wrappers
  import opened PoolOptions
  import opened GenerativeModels
  import opened PooledModels
  import opened AccessTokens
  import opened PoolKeys
  import opened IdleQueues
  import opened ModelPool

  /** The name without the prefix, and the name a caller requests: "models/gemini-pro". */
  const Bare: string := "gemini-pro"
  const Requested: string := ModelsPrefix + Bare
  /** The key acquire uses for the requested name, prefix included. */
  const AcquireKey: string := GetPoolKey("p", "r", Requested)
  /** The key release derives from a handle storing the requested name: without the prefix. */
  const ReleaseKey: string := GetPoolKey("p", "r", Bare)

  /**
   * An acquire on a key whose queue is empty and which has a permit free, with a factory
   * that builds a handle named name: it takes one permit and hands out a new handle.
   */
  method AcquireNew(pool: GenerativeModelPool, project: string, region: string, model: string, name: string)
    returns (handle: GenerativeModel)
    requires pool.Valid()
    requires pool.Queue(GetPoolKey(project, region, model)) == []
    requires pool.Permits(GetPoolKey(project, region, model)) > 0
    modifies pool, pool.TokenProvider
    ensures pool.Valid()
    ensures fresh(handle) && handle.ProjectId == project && handle.Region == region && handle.Model == name
    ensures var key := GetPoolKey(project, region, model);
            && pool.ModelPools == old(pool.ModelPools)[key := []]
            && pool.PoolSemaphores == old(pool.PoolSemaphores)[key := old(pool.Permits(key)) - 1]
  {
    var key := GetPoolKey(project, region, model);
    assert FirstLive(Snapshot(pool.Queue(key)), 0, pool.Options.ModelIdleTimeout) == 0;
    var outcome := pool.GetModel(project, region, model, 0, Some(name), Success("token"));
    assert !outcome.Failed? by {
      if outcome.Failed? {
        assert outcome == Failed(outcome.fault);
        match outcome.fault
        case FactoryFault => assert false;
        case CredentialFault => assert false;
      }
    }
    handle := outcome.model;
  }

  /**
   * One acquire-and-return cycle for the requested name, the n-th: the acquire builds a new
   * handle on a permit of AcquireKey, and the return pools it under ReleaseKey and finds
   * that key's permits all free, so the release raises and the error is logged.
   */
  method MismatchedCycle(pool: GenerativeModelPool, n: nat) returns (logged: bool)
    requires pool.Valid() && pool.Options == Defaults && n < Defaults.MaxPoolSize
    requires pool.Permits(AcquireKey) == Defaults.MaxPoolSize - n && pool.Queue(AcquireKey) == []
    requires pool.Permits(ReleaseKey) == Defaults.MaxPoolSize && |pool.Queue(ReleaseKey)| == n
    modifies pool, pool.TokenProvider
    ensures pool.Valid()
    ensures pool.Permits(AcquireKey) == Defaults.MaxPoolSize - n - 1 && pool.Queue(AcquireKey) == []
    ensures pool.Permits(ReleaseKey) == Defaults.MaxPoolSize && |pool.Queue(ReleaseKey)| == n + 1
    ensures logged
  {
    assert AcquireKey != ReleaseKey by {
      assert |AcquireKey| != |ReleaseKey|;
    }
    var handle := AcquireNew(pool, "p", "r", Requested, Requested);
    StripsExactlyOnePrefix(Bare);
    logged := pool.ReturnModel(handle, 0);
  }

  /**
   * Every acquire of "models/gemini-pro" takes a permit of the key with the prefix, and every
   * release gives one back to the key without it, where all permits are already free: the
   * SemaphoreFullException is logged each time. After MaxPoolSize such cycles the requested
   * key has no permit left and the next acquire blocks, although MaxPoolSize idle handles
   * sit under the other key.
   */
  method MismatchedKeysExhaustPermits() returns (last: AcquireOutcome, allLogged: bool, idle: nat)
    ensures last == Blocked
    ensures allLogged
    ensures idle == Defaults.MaxPoolSize
  {
    var tokens := new AccessTokenProvider();
    var pool := new GenerativeModelPool(tokens, Defaults);
    allLogged := true;
    var n := 0;
    while n < Defaults.MaxPoolSize
      invariant 0 <= n <= Defaults.MaxPoolSize
      invariant pool.Valid() && pool.Options == Defaults && pool.TokenProvider == tokens
      invariant fresh(pool) && fresh(tokens)
      invariant pool.Permits(AcquireKey) == Defaults.MaxPoolSize - n && pool.Queue(AcquireKey) == []
      invariant pool.Permits(ReleaseKey) == Defaults.MaxPoolSize && |pool.Queue(ReleaseKey)| == n
      invariant allLogged
    {
      var logged := MismatchedCycle(pool, n);
      allLogged := allLogged && logged;
      n := n + 1;
    }
    last := pool.GetModel("p", "r", Requested, 0, Some(Requested), Success("token"));
    idle := |pool.Queue(ReleaseKey)|;
  }

  /** Two entries, both expired at now and never reused: one is evicted and one retained for MinPoolSize 1. */
  lemma TwoExpiredEntriesPlan(pool: GenerativeModelPool, s: seq<Stamped>, now: int)
    requires pool.Options == Defaults
    requires |s| == 2 && s[0].IsExpired(now, Defaults.ModelIdleTimeout) && s[1].IsExpired(now, Defaults.ModelIdleTimeout)
    ensures pool.PlanOf(s, now).evictions == 1
    ensures |pool.PlanOf(s, now).queue| == 1
  {
    assert s == [s[0], s[1]];
    EverythingExpired(s, now, Defaults.ModelIdleTimeout);
  }

  /** The key of project "p", region "r" and model "m", a name without the prefix. */
  const PlainKey: string := GetPoolKey("p", "r", "m")

  /**
   * On an empty pool, two acquires of "m" at time 0 build two handles, and both are
   * returned at time 0: the key then holds two idle entries stamped 0 and all its permits.
   */
  method ReturnTwoHandles(pool: GenerativeModelPool)
    requires pool.Valid() && pool.Options == Defaults
    requires pool.ModelPools == map[] && pool.PoolSemaphores == map[]
    modifies pool, pool.TokenProvider
    ensures pool.Valid()
    ensures pool.ModelPools.Keys == {PlainKey} && |pool.ModelPools[PlainKey]| == 2
    ensures pool.ModelPools[PlainKey][0].LastUsed == 0 && pool.ModelPools[PlainKey][1].LastUsed == 0
    ensures pool.PoolSemaphores == map[PlainKey := Defaults.MaxPoolSize]
  {
    var a := AcquireNew(pool, "p", "r", "m", "m");
    var b := AcquireNew(pool, "p", "r", "m", "m");
    KeysAgreeWithoutPrefix(a);
    KeysAgreeWithoutPrefix(b);
    var loggedA := pool.ReturnModel(a, 0);
    var loggedB := pool.ReturnModel(b, 0);
  }

  /**
   * A pass over a single key with all its permits free and a plan of one eviction: the
   * queue becomes the plan's, the permits stay at MaxPoolSize, and the pass crashes.
   */
  lemma SingleKeySweepCrashes(pool: GenerativeModelPool, pools: map<string, seq<PooledModel>>,
                              plans: map<string, CleanupPlan>, key: string)
    requires pool.Options == Defaults
    requires key in plans && plans[key].evictions == 1
    ensures pool.SweepKeys(pools, map[key := Defaults.MaxPoolSize], plans, [key], 1) ==
            Sweep(pools[key := plans[key].queue], map[key := Defaults.MaxPoolSize], true)
  {
    var sems := map[key := Defaults.MaxPoolSize];
    assert pool.SweepKeys(pools, sems, plans, [key], 0) == Sweep(pools, sems, false);
    assert pool.Overflows(sems[key], plans[key]);
    assert sems[key := Min(Defaults.MaxPoolSize, sems[key] + plans[key].evictions)] == sems;
  }

  /**
   * Two handles are returned at time 0 and the cleanup timer fires 31 minutes later. The
   * pass over their key takes its lock permit, evicts one expired entry and keeps the other
   * for MinPoolSize, then releases once for the eviction and once for the lock: the second
   * release finds all permits free and the exception ends the callback. The queue has
   * already been cut to one entry, and the permits are back at MaxPoolSize.
   */
  method CleanupOverReleaseCrashes() returns (outcome: CleanupOutcome, idle: nat, permits: int)
    ensures outcome == SemaphoreFull
    ensures idle == 1
    ensures permits == Defaults.MaxPoolSize
  {
    var tokens := new AccessTokenProvider();
    var pool := new GenerativeModelPool(tokens, Defaults);
    ReturnTwoHandles(pool);
    var later := 31 * TicksPerMinute;
    ghost var s := Snapshot(pool.ModelPools[PlainKey]);
    ghost var pools0 := pool.ModelPools;
    TwoExpiredEntriesPlan(pool, s, later);
    ghost var plans;
    outcome, plans := pool.CleanupIdleModels(later, [PlainKey]);
    SingleKeySweepCrashes(pool, pools0, plans, PlainKey);
    idle := |pool.Queue(PlainKey)|;
    permits := pool.Permits(PlainKey);
  }
}
