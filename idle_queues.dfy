/**
 * Specification functions over one key's idle queue: which entries are expired, which
 * entry a lookup reuses, and what one cleanup pass keeps and evicts. They work on a
 * snapshot of the queue, each entry paired with its LastUsed stamp at the time of the call,
 * so that they do not depend on the heap.
 */
module IdleQueues {
  import opened Wrappers
  import opened PooledModels

  /** A queue entry together with its LastUsed stamp. */
  datatype Stamped = Stamped(entry: PooledModel, lastUsed: int) {
    predicate IsExpired(now: int, timeout: int)
    {
      IdleLongerThan(lastUsed, now, timeout)
    }
  }

  /** The queue q with the current LastUsed stamp of every entry. */
  function Snapshot(q: seq<PooledModel>): (r: seq<Stamped>)
    reads q
    ensures |r| == |q|
    ensures forall i :: 0 <= i < |q| ==> r[i] == Stamped(q[i], q[i].LastUsed)
  {
    if q == [] then [] else [Stamped(q[0], q[0].LastUsed)] + Snapshot(q[1..])
  }

  /** The entries of a snapshot, stamps dropped. */
  function Entries(s: seq<Stamped>): (r: seq<PooledModel>)
    ensures |r| == |s|
    ensures forall i :: 0 <= i < |s| ==> r[i] == s[i].entry
  {
    if s == [] then [] else [s[0].entry] + Entries(s[1..])
  }

  /** Dropping the stamps of a snapshot gives back the queue. */
  lemma EntriesOfSnapshot(q: seq<PooledModel>)
    ensures Entries(Snapshot(q)) == q
  {
  }

  /** Entries of a sub-collection of a snapshot are entries of the snapshot. */
  lemma EntriesStayIn(c: seq<Stamped>, s: seq<Stamped>)
    requires forall x :: x in c ==> x in s
    ensures forall e :: e in Entries(c) ==> e in Entries(s)
  {
    forall e | e in Entries(c) ensures e in Entries(s) {
      var i :| 0 <= i < |c| && Entries(c)[i] == e;
      assert c[i] in s;
      var j :| 0 <= j < |s| && s[j] == c[i];
      assert Entries(s)[j] == e;
    }
  }

  /** The expired entries of s, in queue order. */
  function Expired(s: seq<Stamped>, now: int, timeout: int): (r: seq<Stamped>)
    ensures |r| <= |s|
    ensures forall x :: x in r ==> x in s && x.IsExpired(now, timeout)
  {
    if s == [] then []
    else
      var init := Expired(s[..|s| - 1], now, timeout);
      if s[|s| - 1].IsExpired(now, timeout) then init + [s[|s| - 1]] else init
  }

  /** The entries of s that are not expired, in queue order. */
  function Live(s: seq<Stamped>, now: int, timeout: int): (r: seq<Stamped>)
    ensures |r| <= |s|
    ensures forall x :: x in r ==> x in s && !x.IsExpired(now, timeout)
  {
    if s == [] then []
    else
      var init := Live(s[..|s| - 1], now, timeout);
      if s[|s| - 1].IsExpired(now, timeout) then init else init + [s[|s| - 1]]
  }

  /** Splitting a queue into its live and expired entries loses and duplicates nothing. */
  lemma {:induction false} PartitionIsPermutation(s: seq<Stamped>, now: int, timeout: int)
    ensures multiset(Live(s, now, timeout)) + multiset(Expired(s, now, timeout)) == multiset(s)
    ensures |Live(s, now, timeout)| + |Expired(s, now, timeout)| == |s|
  {
    if s != [] {
      var init := s[..|s| - 1];
      assert s == init + [s[|s| - 1]];
      PartitionIsPermutation(init, now, timeout);
    }
  }

  /** With no expired entry, the live entries are the whole queue. */
  lemma {:induction false} NothingExpired(s: seq<Stamped>, now: int, timeout: int)
    requires forall x :: x in s ==> !x.IsExpired(now, timeout)
    ensures Expired(s, now, timeout) == []
    ensures Live(s, now, timeout) == s
  {
    if s != [] {
      var init := s[..|s| - 1];
      assert s == init + [s[|s| - 1]];
      NothingExpired(init, now, timeout);
    }
  }

  /** With every entry expired, the expired entries are the whole queue. */
  lemma {:induction false} EverythingExpired(s: seq<Stamped>, now: int, timeout: int)
    requires forall x :: x in s ==> x.IsExpired(now, timeout)
    ensures Expired(s, now, timeout) == s
    ensures Live(s, now, timeout) == []
  {
    if s != [] {
      var init := s[..|s| - 1];
      assert s == init + [s[|s| - 1]];
      EverythingExpired(init, now, timeout);
    }
  }

  /**
   * The position a lookup stops at: the first entry that is not expired, or |s| when there
   * is none. Every entry before it is expired.
   */
  function FirstLive(s: seq<Stamped>, now: int, timeout: int): (i: nat)
    ensures i <= |s|
    ensures forall j :: 0 <= j < i ==> s[j].IsExpired(now, timeout)
    ensures i < |s| ==> !s[i].IsExpired(now, timeout)
  {
    if s == [] || !s[0].IsExpired(now, timeout) then 0
    else 1 + FirstLive(s[1..], now, timeout)
  }

  /** FirstLive is the only position with every entry before it expired and itself live or past the end. */
  lemma FirstLiveIsFirst(s: seq<Stamped>, now: int, timeout: int, k: nat)
    requires k <= |s|
    requires forall t :: 0 <= t < k ==> s[t].IsExpired(now, timeout)
    requires k < |s| ==> !s[k].IsExpired(now, timeout)
    ensures FirstLive(s, now, timeout) == k
  {
  }

  predicate SortedByLastUsed(s: seq<Stamped>)
  {
    forall i, j :: 0 <= i < j < |s| ==> s[i].lastUsed <= s[j].lastUsed
  }

  /** The head of a sorted sequence is its oldest entry. */
  lemma SortedHeadIsOldest(s: seq<Stamped>)
    requires SortedByLastUsed(s) && s != []
    ensures forall y :: y in s ==> s[0].lastUsed <= y.lastUsed
  {
    forall y | y in s ensures s[0].lastUsed <= y.lastUsed {
      var k :| 0 <= k < |s| && s[k] == y;
    }
  }

  /** An entry no newer than all of a sorted sequence can be put in front of it. */
  lemma SortedCons(x: Stamped, s: seq<Stamped>)
    requires SortedByLastUsed(s)
    requires forall y :: y in s ==> x.lastUsed <= y.lastUsed
    ensures SortedByLastUsed([x] + s)
  {
    var r := [x] + s;
    forall i, j | 0 <= i < j < |r| ensures r[i].lastUsed <= r[j].lastUsed {
      if i > 0 {
        assert r[i] == s[i - 1] && r[j] == s[j - 1];
      } else {
        assert r[j] in s;
      }
    }
  }

  /** Inserts x into a sequence sorted oldest-first, keeping it sorted. */
  function InsertByLastUsed(x: Stamped, s: seq<Stamped>): (r: seq<Stamped>)
    requires SortedByLastUsed(s)
    ensures SortedByLastUsed(r)
    ensures |r| == |s| + 1
    ensures forall y :: y in r ==> y == x || y in s
    ensures multiset(r) == multiset(s) + multiset{x}
  {
    if s == [] || x.lastUsed <= s[0].lastUsed then
      SortedCons(x, s);
      [x] + s
    else
      var rest := InsertByLastUsed(x, s[1..]);
      SortedHeadIsOldest(s);
      assert forall y :: y in s[1..] ==> y in s;
      SortedCons(s[0], rest);
      assert s == [s[0]] + s[1..];
      [s[0]] + rest
  }

  /** The entries of s ordered by LastUsed, oldest first (stable). */
  function SortByLastUsed(s: seq<Stamped>): (r: seq<Stamped>)
    ensures SortedByLastUsed(r)
    ensures |r| == |s|
    ensures multiset(r) == multiset(s)
  {
    if s == [] then []
    else
      assert multiset(s) == multiset{s[0]} + multiset(s[1..]) by {
        assert s == [s[0]] + s[1..];
      }
      InsertByLastUsed(s[0], SortByLastUsed(s[1..]))
  }

  /** The expired entries, oldest first: the order in which cleanup considers them for eviction. */
  function EvictionOrder(s: seq<Stamped>, now: int, timeout: int): seq<Stamped>
  {
    SortByLastUsed(Expired(s, now, timeout))
  }

  /** How many entries a cleanup pass evicts: all expired ones, but never to below minPoolSize in total. */
  function EvictCount(s: seq<Stamped>, now: int, timeout: int, minPoolSize: int): nat
  {
    Min(|Expired(s, now, timeout)|, Max(0, |s| - minPoolSize))
  }

  /** The entries a cleanup pass evicts. */
  function Evicted(s: seq<Stamped>, now: int, timeout: int, minPoolSize: int): seq<Stamped>
  {
    var order := EvictionOrder(s, now, timeout);
    order[..EvictCount(s, now, timeout, minPoolSize)]
  }

  /** The expired entries a cleanup pass keeps, oldest first, to stay at minPoolSize. */
  function RetainedExpired(s: seq<Stamped>, now: int, timeout: int, minPoolSize: int): seq<Stamped>
  {
    var order := EvictionOrder(s, now, timeout);
    order[EvictCount(s, now, timeout, minPoolSize)..]
  }

  /** The queue after a cleanup pass: the live entries in their order, then the retained expired ones. */
  function CleanedQueue(s: seq<Stamped>, now: int, timeout: int, minPoolSize: int): seq<Stamped>
  {
    Live(s, now, timeout) + RetainedExpired(s, now, timeout, minPoolSize)
  }

  /** Cleanup evicts only expired entries of the queue. */
  lemma CleanupEvictsOnlyExpired(s: seq<Stamped>, now: int, timeout: int, minPoolSize: int)
    ensures forall x :: x in Evicted(s, now, timeout, minPoolSize) ==> x in s && x.IsExpired(now, timeout)
  {
    var order := EvictionOrder(s, now, timeout);
    forall x | x in Evicted(s, now, timeout, minPoolSize)
      ensures x in s && x.IsExpired(now, timeout)
    {
      assert x in order;
      assert x in multiset(Expired(s, now, timeout));
    }
  }

  /**
   * Cleanup evicts min(#expired, max(0, n - minPoolSize)) entries, so what it keeps is
   * never fewer than min(n, minPoolSize).
   */
  lemma CleanupRespectsFloor(s: seq<Stamped>, now: int, timeout: int, minPoolSize: int)
    ensures |Evicted(s, now, timeout, minPoolSize)| == EvictCount(s, now, timeout, minPoolSize)
    ensures |CleanedQueue(s, now, timeout, minPoolSize)| == |s| - EvictCount(s, now, timeout, minPoolSize)
    ensures |CleanedQueue(s, now, timeout, minPoolSize)| >= Min(|s|, minPoolSize)
  {
    PartitionIsPermutation(s, now, timeout);
  }

  /** Every evicted entry was last used no later than every expired entry cleanup keeps. */
  lemma CleanupEvictsOldestFirst(s: seq<Stamped>, now: int, timeout: int, minPoolSize: int)
    ensures forall i, j ::
      0 <= i < |Evicted(s, now, timeout, minPoolSize)| &&
      0 <= j < |RetainedExpired(s, now, timeout, minPoolSize)| ==>
        Evicted(s, now, timeout, minPoolSize)[i].lastUsed <=
        RetainedExpired(s, now, timeout, minPoolSize)[j].lastUsed
  {
    var order := EvictionOrder(s, now, timeout);
    var k := EvictCount(s, now, timeout, minPoolSize);
    forall i, j | 0 <= i < k && 0 <= j < |order| - k
      ensures order[..k][i].lastUsed <= order[k..][j].lastUsed
    {
      assert order[..k][i] == order[i] && order[k..][j] == order[k + j];
    }
  }

  /** Cleanup loses nothing it does not evict: kept and evicted entries together are the old queue. */
  lemma CleanupLosesNothing(s: seq<Stamped>, now: int, timeout: int, minPoolSize: int)
    ensures multiset(Evicted(s, now, timeout, minPoolSize)) + multiset(CleanedQueue(s, now, timeout, minPoolSize))
            == multiset(s)
  {
    var order := EvictionOrder(s, now, timeout);
    var k := EvictCount(s, now, timeout, minPoolSize);
    assert order == order[..k] + order[k..];
    PartitionIsPermutation(s, now, timeout);
  }

  /** When nothing is expired, cleanup leaves the queue's content and order as they were. */
  lemma CleanupWithoutExpiredIsIdentity(s: seq<Stamped>, now: int, timeout: int, minPoolSize: int)
    requires forall x :: x in s ==> !x.IsExpired(now, timeout)
    ensures EvictCount(s, now, timeout, minPoolSize) == 0
    ensures CleanedQueue(s, now, timeout, minPoolSize) == s
  {
    NothingExpired(s, now, timeout);
  }

  /** The cleaned queue is drawn from the old queue and is no longer than it. */
  lemma CleanedQueueIsSubQueue(s: seq<Stamped>, now: int, timeout: int, minPoolSize: int)
    ensures |CleanedQueue(s, now, timeout, minPoolSize)| <= |s|
    ensures forall x :: x in CleanedQueue(s, now, timeout, minPoolSize) ==> x in s
  {
    CleanupRespectsFloor(s, now, timeout, minPoolSize);
    CleanupLosesNothing(s, now, timeout, minPoolSize);
    var cleaned := CleanedQueue(s, now, timeout, minPoolSize);
    forall x | x in cleaned ensures x in s {
      assert x in multiset(cleaned);
      assert x in multiset(s);
    }
  }
}
