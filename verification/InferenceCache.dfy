/**
 * The LRU cache with time-to-live (inference/caching.py:16-90). A query is
 * represented by its digest, and time.time() by the argument now of each call.
 */
module InferenceCaching {
  import opened Wrappers
  import opened Sequences

  /** The md5 digest of a query, taken to identify it. */
  datatype Key = Key(digest: nat)

  datatype Entry<V> = Entry(result: V, timestamp: real, ttl: int)

  /** order: the keys from least to most recently refreshed. */
  datatype Cache<V> = Cache(order: seq<Key>, entries: map<Key, Entry<V>>)

  datatype Config = Config(maxSize: int, ttlSeconds: int)

  datatype Op<V> =
    | GetOp(key: Key, now: real)
    | SetOp(key: Key, result: V, ttl: Option<int>, now: real)
    | ClearOp

  datatype Outcome<V> = Hit(result: V) | Miss | Stored | Cleared | KeyError

  /** refreshed: the key that became the most recent one; removed: the key that was evicted or found expired. */
  datatype Event<V> = Event(outcome: Outcome<V>, refreshed: Option<Key>, removed: Option<Key>)

  // ----- specification -----

  predicate Expired<V>(e: Entry<V>, now: real) {
    now - e.timestamp > e.ttl as real
  }

  function Without(order: seq<Key>, k: Key): seq<Key> {
    if order == [] then [] else if order[0] == k then order[1..] else [order[0]] + Without(order[1..], k)
  }

  function Remove<V>(c: Cache<V>, k: Key): Cache<V> {
    Cache(Without(c.order, k), c.entries - {k})
  }

  /** Absent and zero mean the cache's own time to live. */
  function TtlOf(ttl: Option<int>, cfg: Config): int {
    if ttl.Some? && ttl.value != 0 then ttl.value else cfg.ttlSeconds
  }

  /** Storing into a present key keeps its place in the order. */
  function Store<V>(c: Cache<V>, k: Key, e: Entry<V>): Cache<V> {
    Cache(if k in c.entries then c.order else c.order + [k], c.entries[k := e])
  }

  function Step<V>(c: Cache<V>, op: Op<V>, cfg: Config): (Cache<V>, Event<V>) {
    match op
    case GetOp(k, now) =>
      if k !in c.entries then (c, Event(Miss, None, None))
      else if Expired(c.entries[k], now) then (Remove(c, k), Event(Miss, None, Some(k)))
      else (Cache(Without(c.order, k) + [k], c.entries), Event(Hit(c.entries[k].result), Some(k), None))
    case SetOp(k, v, ttl, now) =>
      if |c.order| < cfg.maxSize then
        (Store(c, k, Entry(v, now, TtlOf(ttl, cfg))), Event(Stored, if k in c.entries then None else Some(k), None))
      else if c.order == [] then (c, Event(KeyError, None, None))
      else
        var oldest := c.order[0];
        var d := Remove(c, oldest);
        (Store(d, k, Entry(v, now, TtlOf(ttl, cfg))),
            Event(Stored, if k in d.entries then None else Some(k), Some(oldest)))
    case ClearOp => (Cache([], map[]), Event(Cleared, None, None))
  }

  datatype Run<V> = Run(cache: Cache<V>, log: seq<Event<V>>)

  function RunOf<V>(ops: seq<Op<V>>, cfg: Config): (r: Run<V>)
    ensures |r.log| == |ops|
  {
    if ops == [] then Run(Cache([], map[]), []) else
      var before := RunOf(ops[..|ops| - 1], cfg);
      var (c, e) := Step(before.cache, ops[|ops| - 1], cfg);
      Run(c, before.log + [e])
  }

  // ----- recency order -----

  ghost predicate Consistent<V>(c: Cache<V>, cfg: Config) {
    && NoDuplicates(c.order)
    && (forall k :: k in c.entries <==> k in c.order)
    && (|c.order| <= cfg.maxSize || c.order == [])
  }

  lemma {:induction false} WithoutSplits(order: seq<Key>, i: nat)
    requires i < |order| && NoDuplicates(order)
    ensures Without(order, order[i]) == order[..i] + order[i + 1..]
  {
    if i > 0 {
      WithoutSplits(order[1..], i - 1);
    }
  }

  /** Removing a listed key closes the gap at its index. */
  lemma WithoutKeeps(order: seq<Key>, k: Key) returns (i: nat)
    requires NoDuplicates(order) && k in order
    ensures i < |order| && order[i] == k && Without(order, k) == order[..i] + order[i + 1..]
    ensures |Without(order, k)| == |order| - 1
    ensures forall j :: 0 <= j < |order| - 1 ==> Without(order, k)[j] == if j < i then order[j] else order[j + 1]
  {
    i :| 0 <= i < |order| && order[i] == k;
    WithoutSplits(order, i);
  }

  lemma WithoutMembers(order: seq<Key>, k: Key)
    requires NoDuplicates(order) && k in order
    ensures NoDuplicates(Without(order, k))
    ensures forall x :: x in Without(order, k) <==> x in order && x != k
  {
    var i := WithoutKeeps(order, k);
    var w := Without(order, k);
    forall x | x in order && x != k ensures x in w {
      var j :| 0 <= j < |order| && order[j] == x;
      assert if j < i then w[j] == x else w[j - 1] == x;
    }
    forall x | x in w ensures x in order && x != k {
      var j :| 0 <= j < |w| && w[j] == x;
      assert x == order[if j < i then j else j + 1];
    }
  }

  lemma RemoveConsistent<V>(c: Cache<V>, k: Key, cfg: Config)
    requires Consistent(c, cfg) && k in c.entries
    ensures Consistent(Remove(c, k), cfg) && |Remove(c, k).order| == |c.order| - 1
  {
    var i := WithoutKeeps(c.order, k);
    WithoutMembers(c.order, k);
  }

  lemma StoreConsistent<V>(c: Cache<V>, k: Key, e: Entry<V>, cfg: Config)
    requires Consistent(c, cfg) && |c.order| < cfg.maxSize
    ensures Consistent(Store(c, k, e), cfg)
  {
  }

  lemma StepConsistent<V>(c: Cache<V>, op: Op<V>, cfg: Config)
    requires Consistent(c, cfg)
    ensures Consistent(Step(c, op, cfg).0, cfg)
  {
    match op
    case GetOp(k, now) =>
      if k in c.entries {
        RemoveConsistent(c, k, cfg);
        StoreConsistent(Remove(c, k), k, c.entries[k], cfg);
        assert Remove(c, k).entries[k := c.entries[k]] == c.entries;
      }
    case SetOp(k, v, ttl, now) =>
      var e := Entry(v, now, TtlOf(ttl, cfg));
      if |c.order| < cfg.maxSize {
        StoreConsistent(c, k, e, cfg);
      } else if c.order != [] {
        RemoveConsistent(c, c.order[0], cfg);
        StoreConsistent(Remove(c, c.order[0]), k, e, cfg);
      }
    case ClearOp =>
  }

  /** The last call that refreshed k, or -1. */
  function LastRefresh<V>(log: seq<Event<V>>, k: Key): int {
    if log == [] then -1
    else if log[|log| - 1].refreshed == Some(k) then |log| - 1
    else LastRefresh(log[..|log| - 1], k)
  }

  lemma {:induction false} LastRefreshBound<V>(log: seq<Event<V>>, k: Key)
    ensures -1 <= LastRefresh(log, k) < |log|
    ensures LastRefresh(log, k) >= 0 ==> log[LastRefresh(log, k)].refreshed == Some(k)
  {
    if log != [] {
      LastRefreshBound(log[..|log| - 1], k);
    }
  }

  lemma LastRefreshAppend<V>(log: seq<Event<V>>, e: Event<V>, k: Key)
    ensures LastRefresh(log + [e], k) == if e.refreshed == Some(k) then |log| else LastRefresh(log, k)
    ensures LastRefresh(log, k) < |log|
  {
    assert (log + [e])[..|log|] == log;
    LastRefreshBound(log, k);
  }

  /** From front to back, the keys were refreshed ever later; all of them were refreshed. */
  ghost predicate InRefreshOrder<V>(order: seq<Key>, log: seq<Event<V>>) {
    && (forall i :: 0 <= i < |order| ==> LastRefresh(log, order[i]) >= 0)
    && (forall i, j :: 0 <= i < j < |order| ==> LastRefresh(log, order[i]) < LastRefresh(log, order[j]))
  }

  lemma DropKeepsOrder<V>(order: seq<Key>, k: Key, log: seq<Event<V>>)
    requires NoDuplicates(order) && k in order && InRefreshOrder(order, log)
    ensures InRefreshOrder(Without(order, k), log)
  {
    var i := WithoutKeeps(order, k);
    var w := Without(order, k);
    forall a, b | 0 <= a < b < |w| ensures LastRefresh(log, w[a]) < LastRefresh(log, w[b]) {
      var x, y := if a < i then a else a + 1, if b < i then b else b + 1;
      assert w[a] == order[x] && w[b] == order[y] && x < y;
    }
  }

  /** Appending an event that refreshes no listed key, and possibly its own new last key. */
  lemma AppendKeepsOrder<V>(order: seq<Key>, log: seq<Event<V>>, e: Event<V>)
    requires InRefreshOrder(order, log)
    requires e.refreshed.Some? ==> e.refreshed.value !in order
    ensures InRefreshOrder(if e.refreshed.Some? then order + [e.refreshed.value] else order, log + [e])
  {
    forall k { LastRefreshAppend(log, e, k); }
  }

  lemma StepKeepsOrder<V>(c: Cache<V>, log: seq<Event<V>>, op: Op<V>, cfg: Config)
    requires Consistent(c, cfg) && InRefreshOrder(c.order, log)
    ensures var (d, e) := Step(c, op, cfg);
            InRefreshOrder(d.order, log + [e])
  {
    var (d, e) := Step(c, op, cfg);
    var kept := if op.ClearOp? then [] else c.order;
    if op.GetOp? && op.key in c.entries {
      DropKeepsOrder(c.order, op.key, log);
      WithoutMembers(c.order, op.key);
      kept := Without(c.order, op.key);
    } else if op.SetOp? && |c.order| >= cfg.maxSize && c.order != [] {
      DropKeepsOrder(c.order, c.order[0], log);
      WithoutMembers(c.order, c.order[0]);
      kept := Without(c.order, c.order[0]);
    }
    AppendKeepsOrder(kept, log, e);
  }

  /** On every run the cache is within its size and its order is the order of last refresh. */
  lemma {:induction false} RunIsLru<V>(ops: seq<Op<V>>, cfg: Config)
    ensures var r := RunOf(ops, cfg);
            Consistent(r.cache, cfg) && InRefreshOrder(r.cache.order, r.log)
  {
    if ops != [] {
      var n := |ops| - 1;
      RunIsLru(ops[..n], cfg);
      var before := RunOf(ops[..n], cfg);
      StepConsistent(before.cache, ops[n], cfg);
      StepKeepsOrder(before.cache, before.log, ops[n], cfg);
    }
  }

  // ----- eviction -----

  /** The keys other than k that were refreshed after call i. */
  ghost function RefreshedSince<V>(log: seq<Event<V>>, i: int, k: Key): set<Key> {
    set j | i < j < |log| && 0 <= j && log[j].refreshed.Some? && log[j].refreshed.value != k :: log[j].refreshed.value
  }

  /** All the other cached keys were refreshed after the oldest one. */
  lemma OthersAreYounger<V>(order: seq<Key>, log: seq<Event<V>>)
    requires order != [] && NoDuplicates(order) && InRefreshOrder(order, log)
    ensures |RefreshedSince(log, LastRefresh(log, order[0]), order[0])| >= |order| - 1
  {
    var k, rest := order[0], order[1..];
    var others := set x | x in rest;
    var since := RefreshedSince(log, LastRefresh(log, k), k);
    DistinctSize(rest);
    forall x | x in others ensures x in since {
      var j :| 0 <= j < |rest| && rest[j] == x;
      assert order[j + 1] == x && LastRefresh(log, order[0]) < LastRefresh(log, order[j + 1]);
      LastRefreshBound(log, x);
      assert log[LastRefresh(log, x)].refreshed == Some(x);
    }
    SubsetSize(others, since);
  }

  /** set evicts a key only when at least maxSize - 1 other keys were refreshed since that key was. */
  lemma EvictionIsLru<V>(ops: seq<Op<V>>, op: Op<V>, cfg: Config)
    requires op.SetOp? && Step(RunOf(ops, cfg).cache, op, cfg).1.removed.Some?
    ensures var log := RunOf(ops, cfg).log;
            var k := Step(RunOf(ops, cfg).cache, op, cfg).1.removed.value;
            |RefreshedSince(log, LastRefresh(log, k), k)| >= cfg.maxSize - 1
  {
    RunIsLru(ops, cfg);
    OthersAreYounger(RunOf(ops, cfg).cache.order, RunOf(ops, cfg).log);
  }

  // ----- agreement with an unbounded timed map -----

  /** The most recent set of k since the last clear, or -1: a property of the calls alone. */
  function LastSet<V>(ops: seq<Op<V>>, k: Key): (i: int)
    ensures -1 <= i < |ops| && (i >= 0 ==> ops[i].SetOp? && ops[i].key == k)
  {
    if ops == [] then -1 else
      var n := |ops| - 1;
      match ops[n]
      case ClearOp => -1
      case SetOp(x, _, _, _) => if x == k then n else LastSet(ops[..n], k)
      case GetOp(_, _) => LastSet(ops[..n], k)
  }

  function EntryOf<V>(op: Op<V>, cfg: Config): Entry<V>
    requires op.SetOp?
  {
    Entry(op.result, op.now, TtlOf(op.ttl, cfg))
  }

  /** k was evicted or found expired after call i. */
  ghost predicate RemovedAfter<V>(log: seq<Event<V>>, k: Key, i: int) {
    exists j :: i < j < |log| && 0 <= j && log[j].removed == Some(k)
  }

  lemma RemovedAppend<V>(log: seq<Event<V>>, e: Event<V>, k: Key, i: int)
    requires i < |log|
    ensures RemovedAfter(log + [e], k, i) <==> RemovedAfter(log, k, i) || e.removed == Some(k)
  {
    if e.removed == Some(k) {
      assert (log + [e])[|log|].removed == Some(k);
    }
    forall j | i < j < |log| && 0 <= j ensures (log + [e])[j] == log[j] {}
  }

  /** What the cache holds for k, said of the calls and removals alone. */
  ghost predicate Holds<V>(c: Cache<V>, ops: seq<Op<V>>, log: seq<Event<V>>, k: Key, cfg: Config) {
    var i := LastSet(ops, k);
    && (k in c.entries <==> i >= 0 && !RemovedAfter(log, k, i))
    && (k in c.entries ==> c.entries[k] == EntryOf(ops[i], cfg))
  }

  lemma StepHolds<V>(c: Cache<V>, ops: seq<Op<V>>, log: seq<Event<V>>, op: Op<V>, k: Key, cfg: Config)
    requires cfg.maxSize >= 1 && Consistent(c, cfg) && |log| == |ops| && Holds(c, ops, log, k, cfg)
    ensures var (d, e) := Step(c, op, cfg);
            Holds(d, ops + [op], log + [e], k, cfg)
  {
    var (d, e) := Step(c, op, cfg);
    assert (ops + [op])[..|ops|] == ops;
    RemovedAppend(log, e, k, LastSet(ops, k));
    if op.SetOp? && |c.order| >= cfg.maxSize {
      assert c.order[0] in c.order;
    }
  }

  /**
   * On every run, k is cached exactly when it was set since the last clear and not
   * removed since, with that set's entry.
   */
  lemma {:induction false} RunHolds<V>(ops: seq<Op<V>>, k: Key, cfg: Config)
    requires cfg.maxSize >= 1
    ensures Holds(RunOf(ops, cfg).cache, ops, RunOf(ops, cfg).log, k, cfg)
  {
    if ops != [] {
      var n := |ops| - 1;
      RunHolds(ops[..n], k, cfg);
      RunIsLru(ops[..n], cfg);
      var before := RunOf(ops[..n], cfg);
      StepHolds(before.cache, ops[..n], before.log, ops[n], k, cfg);
      assert ops[..n] + [ops[n]] == ops;
    }
  }

  /** At now, the entry that this set stores is no older than the time to live it asked for. */
  ghost predicate InTime<V>(op: Op<V>, now: real, cfg: Config)
    requires op.SetOp?
  {
    now - op.now <= (if op.ttl.Some? && op.ttl.value != 0 then op.ttl.value else cfg.ttlSeconds) as real
  }

  /**
   * A get hits exactly when the last set of its key still stands and is within its
   * time to live, and returns that result. After any other get the key is not cached.
   */
  lemma {:induction false} GetAgrees<V>(ops: seq<Op<V>>, k: Key, now: real, cfg: Config)
    requires cfg.maxSize >= 1
    ensures var r, i := RunOf(ops, cfg), LastSet(ops, k);
            var (d, e) := Step(r.cache, GetOp(k, now), cfg);
            if i >= 0 && !RemovedAfter(r.log, k, i) && InTime(ops[i], now, cfg)
            then e.outcome == Hit(ops[i].result) && d.entries == r.cache.entries
            else e.outcome == Miss && d.entries == r.cache.entries - {k}
  {
    RunHolds(ops, k, cfg);
  }

  /**
   * A key becomes the most recent one by a get of it that hits, or by a set of it
   * that does not overwrite: it was not cached, or it was itself evicted to make room.
   */
  lemma RefreshReason<V>(c: Cache<V>, op: Op<V>, k: Key, cfg: Config)
    requires Consistent(c, cfg)
    ensures var (d, e) := Step(c, op, cfg);
            && (e.refreshed == Some(k) <==>
                || (op.GetOp? && op.key == k && e.outcome.Hit?)
                || (op.SetOp? && op.key == k && e.outcome == Stored && (k !in c.entries || e.removed == Some(k))))
            && (e.refreshed == Some(k) ==> |d.order| > 0 && d.order[|d.order| - 1] == k)
  {
  }

  lemma {:induction false} LogPrefix<V>(ops: seq<Op<V>>, j: nat, cfg: Config)
    requires j < |ops|
    ensures RunOf(ops, cfg).log[j] == Step(RunOf(ops[..j], cfg).cache, ops[j], cfg).1
  {
    var n := |ops| - 1;
    if j < n {
      LogPrefix(ops[..n], j, cfg);
      assert ops[..n][..j] == ops[..j];
    }
  }

  /**
   * A key is only removed by a set into a full cache that holds it as its oldest, or
   * by a get that finds its last set expired.
   */
  lemma RemovalReason<V>(ops: seq<Op<V>>, j: nat, k: Key, cfg: Config)
    requires cfg.maxSize >= 1 && j < |ops| && RunOf(ops, cfg).log[j].removed == Some(k)
    ensures var before := RunOf(ops[..j], cfg).cache;
            var i := LastSet(ops[..j], k);
            || (ops[j].SetOp? && |before.order| == cfg.maxSize && before.order[0] == k)
            || (ops[j].GetOp? && ops[j].key == k && i >= 0 && !InTime(ops[i], ops[j].now, cfg))
  {
    LogPrefix(ops, j, cfg);
    RunIsLru(ops[..j], cfg);
    RunHolds(ops[..j], k, cfg);
  }

  /** With no room at all, set raises and the cache stays empty. */
  lemma {:induction false} NoRoom<V>(ops: seq<Op<V>>, cfg: Config)
    requires cfg.maxSize <= 0
    ensures RunOf(ops, cfg).cache == Cache([], map[])
    ensures forall j :: 0 <= j < |ops| && ops[j].SetOp? ==> RunOf(ops, cfg).log[j].outcome == KeyError
  {
    if ops != [] {
      NoRoom(ops[..|ops| - 1], cfg);
    }
  }

  // ----- counters -----

  function Hits<V>(log: seq<Event<V>>): nat {
    if log == [] then 0 else Hits(log[..|log| - 1]) + if log[|log| - 1].outcome.Hit? then 1 else 0
  }

  function Misses<V>(log: seq<Event<V>>): nat {
    if log == [] then 0 else Misses(log[..|log| - 1]) + if log[|log| - 1].outcome.Miss? then 1 else 0
  }

  function Gets<V>(ops: seq<Op<V>>): nat {
    if ops == [] then 0 else Gets(ops[..|ops| - 1]) + if ops[|ops| - 1].GetOp? then 1 else 0
  }

  lemma CountAppend<V>(log: seq<Event<V>>, e: Event<V>)
    ensures Hits(log + [e]) == Hits(log) + (if e.outcome.Hit? then 1 else 0)
    ensures Misses(log + [e]) == Misses(log) + (if e.outcome.Miss? then 1 else 0)
  {
    assert (log + [e])[..|log|] == log;
  }

  lemma {:induction false} CountersAddUp<V>(ops: seq<Op<V>>, cfg: Config)
    ensures Hits(RunOf(ops, cfg).log) + Misses(RunOf(ops, cfg).log) == Gets(ops)
  {
    if ops != [] {
      var n := |ops| - 1;
      CountersAddUp(ops[..n], cfg);
      var before := RunOf(ops[..n], cfg);
      var e := Step(before.cache, ops[n], cfg).1;
      assert RunOf(ops, cfg).log == before.log + [e];
      CountAppend(before.log, e);
    }
  }

  // ----- implementation -----

  class CachedInference<V> {
    const key: Key
    const result: V
    const timestamp: real
    const ttlSeconds: int
    var hitCount: nat

    constructor (key: Key, result: V, timestamp: real, ttlSeconds: int)
      ensures this.key == key && this.result == result && this.timestamp == timestamp
      ensures this.ttlSeconds == ttlSeconds && hitCount == 0
    {
      this.key, this.result, this.timestamp, this.ttlSeconds, hitCount := key, result, timestamp, ttlSeconds, 0;
    }

    predicate IsExpired(now: real)
      ensures IsExpired(now) <==> Expired(Entry(result, timestamp, ttlSeconds), now)
    {
      now - timestamp > ttlSeconds as real
    }
  }

  class InferenceCache<V> {
    var order: seq<Key>
    var cache: map<Key, CachedInference<V>>
    const maxSize: int
    const ttlSeconds: int
    var hits: nat
    var misses: nat

    constructor (maxSize: int := 1000, ttlSeconds: int := 3600)
      ensures this.maxSize == maxSize && this.ttlSeconds == ttlSeconds && Shows(Cache([], map[])) && Counts([])
    {
      this.maxSize, this.ttlSeconds := maxSize, ttlSeconds;
      order, cache, hits, misses := [], map[], 0, 0;
    }

    ghost function Cfg(): Config {
      Config(maxSize, ttlSeconds)
    }

    /** c is this cache as a value. */
    ghost predicate Shows(c: Cache<V>)
      reads this
    {
      && Consistent(c, Cfg())
      && order == c.order && cache.Keys == c.entries.Keys
      && (forall k :: k in cache ==>
            c.entries[k] == Entry(cache[k].result, cache[k].timestamp, cache[k].ttlSeconds))
    }

    /** hits and misses count the outcomes that the log records. */
    ghost predicate Counts(log: seq<Event<V>>)
      reads this
    {
      hits == Hits(log) && misses == Misses(log)
    }

    method Get(key: Key, now: real, ghost c: Cache<V>, ghost log: seq<Event<V>>) returns (result: Option<V>)
      requires Shows(c) && Counts(log)
      modifies this, cache.Values
      ensures var (d, e) := Step(c, GetOp(key, now), Cfg());
              && Shows(d) && Counts(log + [e])
              && result == if e.outcome.Hit? then Some(e.outcome.result) else None
      ensures result.Some? <==>
                key in old(cache) && now - old(cache)[key].timestamp <= old(cache)[key].ttlSeconds as real
      ensures result.Some? ==> result.value == cache[key].result && order == Without(old(order), key) + [key]
      ensures result.Some? ==> cache == old(cache) && cache[key].hitCount == old(cache[key].hitCount) + 1
      ensures result.None? ==> cache == old(cache) - {key}
      ensures hits == old(hits) + (if result.Some? then 1 else 0)
      ensures misses == old(misses) + (if result.Some? then 0 else 1)
    {
      StepConsistent(c, GetOp(key, now), Cfg());
      CountAppend(log, Step(c, GetOp(key, now), Cfg()).1);
      if key !in cache {
        misses := misses + 1;
        return None;
      }
      var cached := cache[key];
      if cached.IsExpired(now) {
        cache := cache - {key};
        order := Without(order, key);
        misses := misses + 1;
        return None;
      }
      order := Without(order, key) + [key];
      cached.hitCount := cached.hitCount + 1;
      hits := hits + 1;
      return Some(cached.result);
    }

    /** ok is false when the eviction raises KeyError, which leaves the cache as it was. */
    method Set(key: Key, result: V, ttl: Option<int>, now: real, ghost c: Cache<V>) returns (ok: bool)
      requires Shows(c)
      modifies `order, `cache
      ensures var (d, e) := Step(c, SetOp(key, result, ttl, now), Cfg());
              Shows(d) && (ok <==> e.outcome != KeyError)
      ensures ok <==> |old(order)| < maxSize || old(order) != []
      ensures !ok ==> cache == old(cache) && order == old(order)
      ensures ok ==>
                && cache == (if |old(order)| < maxSize then old(cache)
                             else old(cache) - {old(order)[0]})[key := cache[key]]
                && cache[key].result == result && cache[key].timestamp == now
                && cache[key].ttlSeconds == (if ttl.Some? && ttl.value != 0 then ttl.value else ttlSeconds)
    {
      ghost var d := c;
      if |order| >= maxSize {
        if order == [] { return false; }
        PopOldest(c);
        d := Remove(c, c.order[0]);
      }
      var cached := new CachedInference(key, result, now,
          if ttl.Some? && ttl.value != 0 then ttl.value else ttlSeconds);
      Put(cached, d);
      return true;
    }

    /** popitem(last=False) */
    method PopOldest(ghost c: Cache<V>)
      requires Shows(c) && order != []
      modifies `order, `cache
      ensures Shows(Remove(c, c.order[0])) && order == old(order)[1..] && cache == old(cache) - {old(order)[0]}
    {
      RemoveConsistent(c, order[0], Cfg());
      cache := cache - {order[0]};
      order := order[1..];
    }

    /** Assigning to a key of the ordered dictionary. */
    method Put(cached: CachedInference<V>, ghost c: Cache<V>)
      requires Shows(c) && |order| < maxSize
      modifies `order, `cache
      ensures Shows(Store(c, cached.key, Entry(cached.result, cached.timestamp, cached.ttlSeconds)))
      ensures cache == old(cache)[cached.key := cached]
    {
      StoreConsistent(c, cached.key, Entry(cached.result, cached.timestamp, cached.ttlSeconds), Cfg());
      if cached.key !in cache {
        order := order + [cached.key];
      }
      cache := cache[cached.key := cached];
    }

    method Clear()
      modifies `order, `cache
      ensures Shows(Cache([], map[]))
    {
      order, cache := [], map[];
    }
  }
}
