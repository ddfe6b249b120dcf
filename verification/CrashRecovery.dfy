/**
 * The key-value store, the transaction log and crash recovery
 * (substrate/state.py:63-92, substrate/sync.py:136-169, substrate/recovery.py).
 */
module Recovery {
  import opened Wrappers

  type Value = map<string, int>

  datatype Entry = Entry(operation: string, key: string, value: Value)

  type Contents = map<string, Value>

  // ----- specification -----

  function Lookup(c: Contents, key: string): Option<Value> {
    if key in c then Some(c[key]) else None
  }

  predicate Writes(e: Entry, key: string) {
    e.operation == "write" && e.key == key
  }

  /** Only a write takes effect; a delete is skipped. */
  function Applied(c: Contents, entry: Entry): Contents {
    if entry.operation == "write" then c[entry.key := entry.value] else c
  }

  /** Replaying entries[from..until]: only writes take effect; deletes are skipped. */
  function Replayed(c: Contents, entries: seq<Entry>, from: nat, until: nat): Contents
    requires until <= |entries|
    decreases until
  {
    if from >= until then c else
      var before := Replayed(c, entries, from, until - 1);
      Applied(before, entries[until - 1])
  }

  ghost predicate Written(entries: seq<Entry>, key: string, from: nat, until: nat)
    requires until <= |entries|
  {
    exists i :: from <= i < until && Writes(entries[i], key)
  }

  /** Last writer wins: a key written in the range forgets the store it started from; any other key keeps it. */
  lemma {:induction false} ReplayedKey(c: Contents, d: Contents, entries: seq<Entry>,
                                       from: nat, until: nat, key: string)
    requires until <= |entries|
    ensures Written(entries, key, from, until) ==>
              Lookup(Replayed(c, entries, from, until), key) == Lookup(Replayed(d, entries, from, until), key)
    ensures !Written(entries, key, from, until) ==> Lookup(Replayed(c, entries, from, until), key) == Lookup(c, key)
    decreases until
  {
    if from < until {
      ReplayedKey(c, d, entries, from, until - 1, key);
      assert Writes(entries[until - 1], key) ==> Written(entries, key, from, until);
      assert Written(entries, key, from, until - 1) ==> Written(entries, key, from, until);
    }
  }

  /** Entry i is a write, and no later entry before until writes the same key. */
  ghost predicate Wins(entries: seq<Entry>, i: nat, until: nat)
    requires i < until <= |entries|
  {
    && entries[i].operation == "write"
    && forall j :: i < j < until && entries[j].operation == "write" ==> entries[j].key != entries[i].key
  }

  /**
   * after holds, for every key written by entries[from..until], the value of the
   * last such write, and for any other key what before held.
   */
  ghost predicate Replays(after: Contents, before: Contents, entries: seq<Entry>, from: nat, until: nat)
    requires until <= |entries|
  {
    && (forall i :: from <= i < until && Wins(entries, i, until) ==>
          Lookup(after, entries[i].key) == Some(entries[i].value))
    && (forall key :: (forall i :: from <= i < until && entries[i].operation == "write" ==> entries[i].key != key) ==>
          Lookup(after, key) == Lookup(before, key))
  }

  lemma {:induction false} WinnerStays(c: Contents, entries: seq<Entry>, from: nat, until: nat, i: nat)
    requires from <= i < until <= |entries| && Wins(entries, i, until)
    ensures Lookup(Replayed(c, entries, from, until), entries[i].key) == Some(entries[i].value)
    decreases until
  {
    if i < until - 1 {
      WinnerStays(c, entries, from, until - 1, i);
    }
  }

  /** Replaying does just that. */
  lemma {:induction false} ReplayedReplays(c: Contents, entries: seq<Entry>, from: nat, until: nat)
    requires until <= |entries|
    ensures Replays(Replayed(c, entries, from, until), c, entries, from, until)
  {
    var after := Replayed(c, entries, from, until);
    forall i | from <= i < until && Wins(entries, i, until)
      ensures Lookup(after, entries[i].key) == Some(entries[i].value)
    {
      WinnerStays(c, entries, from, until, i);
    }
    forall key | forall i :: from <= i < until && entries[i].operation == "write" ==> entries[i].key != key
      ensures Lookup(after, key) == Lookup(c, key)
    {
      ReplayedKey(c, c, entries, from, until, key);
    }
  }

  lemma {:induction false} ReplayedInTwo(c: Contents, entries: seq<Entry>, from: nat, middle: nat, until: nat)
    requires from <= middle <= until <= |entries|
    ensures Replayed(Replayed(c, entries, from, middle), entries, middle, until) == Replayed(c, entries, from, until)
    decreases until
  {
    if middle < until {
      ReplayedInTwo(c, entries, from, middle, until - 1);
    }
  }

  lemma SameLookups(c: Contents, d: Contents)
    requires forall key :: Lookup(c, key) == Lookup(d, key)
    ensures c == d
  {
    forall key ensures key in c <==> key in d {
      assert Lookup(c, key) == Lookup(d, key);
    }
    forall key | key in c ensures c[key] == d[key] {
      assert Lookup(c, key) == Lookup(d, key);
    }
  }

  /** What recovery leaves: a store that held the first j entries, replayed from the recovery point k to the end. */
  function Recovered(base: Contents, entries: seq<Entry>, j: nat, k: nat): Contents
    requires j <= |entries|
  {
    Replayed(Replayed(base, entries, 0, j), entries, k, |entries|)
  }

  /**
   * Recovery restores the full log exactly when every key that the suffix does
   * not write has the same value after j entries as at the recovery point.
   */
  lemma RecoveryCondition(base: Contents, entries: seq<Entry>, j: nat, k: nat)
    requires j <= |entries| && k <= |entries|
    ensures Recovered(base, entries, j, k) == Replayed(base, entries, 0, |entries|)
       <==> forall key :: !Written(entries, key, k, |entries|) ==>
              Lookup(Replayed(base, entries, 0, j), key) == Lookup(Replayed(base, entries, 0, k), key)
  {
    var n := |entries|;
    var held, point := Replayed(base, entries, 0, j), Replayed(base, entries, 0, k);
    ReplayedInTwo(base, entries, 0, k, n);
    forall key
      ensures Lookup(Recovered(base, entries, j, k), key) == Lookup(Replayed(base, entries, 0, n), key)
         <==> (Written(entries, key, k, n) || Lookup(held, key) == Lookup(point, key))
    {
      ReplayedKey(held, point, entries, k, n, key);
      ReplayedKey(point, held, entries, k, n, key);
    }
    if forall key :: Lookup(Recovered(base, entries, j, k), key) == Lookup(Replayed(base, entries, 0, n), key) {
      SameLookups(Recovered(base, entries, j, k), Replayed(base, entries, 0, n));
    }
  }

  /** Replaying the suffix again is harmless: any crash point at or after the recovery point recovers fully. */
  lemma LaterCrashRecovers(base: Contents, entries: seq<Entry>, j: nat, k: nat)
    requires k <= j <= |entries|
    ensures Recovered(base, entries, j, k) == Replayed(base, entries, 0, |entries|)
  {
    var held, point := Replayed(base, entries, 0, j), Replayed(base, entries, 0, k);
    ReplayedInTwo(base, entries, 0, k, j);
    forall key | !Written(entries, key, k, |entries|) ensures Lookup(held, key) == Lookup(point, key) {
      assert !Written(entries, key, k, j);
      ReplayedKey(point, point, entries, k, j, key);
    }
    RecoveryCondition(base, entries, j, k);
  }

  lemma {:induction false} WrittenIsPresent(c: Contents, entries: seq<Entry>, from: nat, until: nat, key: string)
    requires until <= |entries| && Written(entries, key, from, until)
    ensures key in Replayed(c, entries, from, until)
    decreases until
  {
    if !Writes(entries[until - 1], key) {
      WrittenIsPresent(c, entries, from, until - 1, key);
    }
  }

  /**
   * The snapshot is empty and never restored: a crash before the recovery point
   * loses a new key that was only written in between.
   */
  lemma EarlierCrashLosesWrites(base: Contents, entries: seq<Entry>, j: nat, k: nat, key: string)
    requires j <= k <= |entries|
    requires key !in base && !Written(entries, key, 0, j)
    requires Written(entries, key, j, k) && !Written(entries, key, k, |entries|)
    ensures key !in Recovered(base, entries, j, k) && key in Replayed(base, entries, 0, |entries|)
  {
    var held := Replayed(base, entries, 0, j);
    ReplayedKey(base, base, entries, 0, j, key);
    ReplayedKey(held, held, entries, k, |entries|, key);
    WrittenIsPresent(base, entries, 0, |entries|, key);
  }

  // ----- replay from any index -----

  /** None stands for an index error: a negative index counts from the end, and goes on from the start. */
  function ReplayedFrom(c: Contents, entries: seq<Entry>, from: int): Option<Contents> {
    if from >= 0 then Some(Replayed(c, entries, from, |entries|))
    else if -from > |entries| then None
    else Some(Replayed(Replayed(c, entries, |entries| + from, |entries|), entries, 0, |entries|))
  }

  /** After the indices from, from + 1, ..., i - 1. */
  function PartlyReplayed(c: Contents, entries: seq<Entry>, from: int, i: int): Contents
    requires from <= i && (i <= |entries| || i == from) && (from < -|entries| ==> i == from)
  {
    var n := |entries|;
    if i == from then c
    else if i <= 0 then Replayed(c, entries, n + from, n + i)
    else if from < 0 then Replayed(Replayed(c, entries, n + from, n), entries, 0, i)
    else Replayed(c, entries, from, i)
  }

  lemma OneMore(c: Contents, entries: seq<Entry>, from: int, i: int)
    requires -|entries| <= from <= i < |entries|
    ensures PartlyReplayed(c, entries, from, i + 1)
         == Applied(PartlyReplayed(c, entries, from, i), entries[if i < 0 then |entries| + i else i])
  {
    var n := |entries|;
    if i < 0 {
      assert Replayed(c, entries, n + from, n + i + 1)
          == Applied(Replayed(c, entries, n + from, n + i), entries[n + i]);
    } else if from < 0 {
      var begun := Replayed(c, entries, n + from, n);
      assert Replayed(begun, entries, 0, i + 1) == Applied(Replayed(begun, entries, 0, i), entries[i]);
    } else {
      assert Replayed(c, entries, from, i + 1) == Applied(Replayed(c, entries, from, i), entries[i]);
    }
  }

  /** A negative index that is in range replays the whole log, however much of it went before. */
  lemma NegativeReplaysAll(c: Contents, entries: seq<Entry>, from: int)
    requires from < 0
    ensures ReplayedFrom(c, entries, from)
        == if -from > |entries| then None else Some(Replayed(c, entries, 0, |entries|))
  {
    if -from <= |entries| {
      var n, k := |entries|, |entries| + from;
      var before := Replayed(c, entries, k, n);
      forall key ensures Lookup(Replayed(before, entries, 0, n), key) == Lookup(Replayed(c, entries, 0, n), key) {
        ReplayedKey(before, c, entries, 0, n, key);
        ReplayedKey(c, c, entries, 0, n, key);
        ReplayedKey(c, c, entries, k, n, key);
        assert Written(entries, key, k, n) ==> Written(entries, key, 0, n);
      }
      SameLookups(Replayed(before, entries, 0, n), Replayed(c, entries, 0, n));
    }
  }

  // ----- runs with crashes -----

  /** The log, the store, how many entries the store has seen since the start, and the last recovery point. */
  datatype System = System(entries: seq<Entry>, store: Contents, applied: nat, point: Option<nat>)

  /** CrashOp(j) leaves the store as it was after j entries: the latest writes are lost. */
  datatype Op = LogOp(entry: Entry) | ApplyOp | PointOp | CrashOp(j: nat) | RecoverOp

  function Step(base: Contents, s: System, op: Op): System
  {
    var n := |s.entries|;
    match op
    case LogOp(e) => s.(entries := s.entries + [e])
    case ApplyOp =>
      if s.applied < n then s.(store := Replayed(s.store, s.entries, s.applied, s.applied + 1),
          applied := s.applied + 1) else s
    case PointOp => s.(point := Some(n))
    case CrashOp(j) => if j <= n then s.(store := Replayed(base, s.entries, 0, j), applied := j) else s
    case RecoverOp =>
      if s.point.Some? then
        s.(store := Replayed(s.store, s.entries, s.point.value, n),
            applied := if s.point.value <= n then n else s.applied)
      else s
  }

  function Run(base: Contents, ops: seq<Op>): System {
    if ops == [] then System([], base, 0, None) else Step(base, Run(base, ops[..|ops| - 1]), ops[|ops| - 1])
  }

  /**
   * A recovery point is created when every logged entry has reached the store; a
   * crash loses no write that is older than one.
   */
  ghost predicate Disciplined(s: System, op: Op) {
    match op
    case PointOp => s.applied == |s.entries|
    case CrashOp(j) => j <= s.applied && (s.point.Some? ==> s.point.value <= j)
    case _ => true
  }

  ghost predicate DisciplinedRun(base: Contents, ops: seq<Op>) {
    forall i :: 0 <= i < |ops| ==> Disciplined(Run(base, ops[..i]), ops[i])
  }

  /** The store holds the first applied entries, and the recovery point is among them. */
  ghost predicate Consistent(base: Contents, s: System) {
    && s.applied <= |s.entries| && s.store == Replayed(base, s.entries, 0, s.applied)
    && (s.point.Some? ==> s.point.value <= s.applied)
  }

  lemma {:induction false} ReplayedPrefix(c: Contents, entries: seq<Entry>, more: seq<Entry>, from: nat, until: nat)
    requires until <= |entries|
    ensures Replayed(c, entries + more, from, until) == Replayed(c, entries, from, until)
    decreases until
  {
    if from < until {
      ReplayedPrefix(c, entries, more, from, until - 1);
    }
  }

  lemma StepConsistent(base: Contents, s: System, op: Op)
    requires Consistent(base, s) && Disciplined(s, op)
    ensures Consistent(base, Step(base, s, op))
  {
    match op
    case LogOp(e) => ReplayedPrefix(base, s.entries, [e], 0, s.applied);
    case ApplyOp =>
      if s.applied < |s.entries| {
        ReplayedInTwo(base, s.entries, 0, s.applied, s.applied + 1);
      }
    case PointOp =>
    case CrashOp(j) =>
    case RecoverOp =>
      if s.point.Some? {
        LaterCrashRecovers(base, s.entries, s.applied, s.point.value);
      }
  }

  lemma {:induction false} RunConsistent(base: Contents, ops: seq<Op>)
    requires DisciplinedRun(base, ops)
    ensures Consistent(base, Run(base, ops))
  {
    if ops != [] {
      var n := |ops| - 1;
      forall i | 0 <= i < n ensures Disciplined(Run(base, ops[..n][..i]), ops[..n][i]) {
        assert ops[..n][..i] == ops[..i];
      }
      RunConsistent(base, ops[..n]);
      assert Disciplined(Run(base, ops[..n]), ops[n]);
      StepConsistent(base, Run(base, ops[..n]), ops[n]);
    }
  }

  /**
   * However often the system crashed and recovered before: recovering leaves the
   * store with everything that was ever logged.
   */
  lemma {:induction false} RunRecovers(base: Contents, ops: seq<Op>)
    requires DisciplinedRun(base, ops) && Run(base, ops).point.Some?
    ensures var s := Run(base, ops);
            Step(base, s, RecoverOp).store == Replayed(base, s.entries, 0, |s.entries|)
  {
    var s := Run(base, ops);
    RunConsistent(base, ops);
    LaterCrashRecovers(base, s.entries, s.applied, s.point.value);
  }

  // ----- implementation -----

  datatype StateEntry = StateEntry(key: string, value: Value, version: nat)

  class KVStore {
    var store: map<string, StateEntry>

    constructor ()
      ensures store == map[]
    {
      store := map[];
    }

    /** The stored values, without versions. */
    ghost function Values(): Contents
      reads this
    {
      map k | k in store :: store[k].value
    }

    lemma ShowsValues(c: Contents)
      requires Shows(c)
      ensures Values() == c
    {
    }

    ghost predicate Shows(c: Contents)
      reads this
    {
      store.Keys == c.Keys && forall k :: k in store ==> store[k].value == c[k]
    }

    /** The version is the number of keys before the write. */
    method Put(key: string, value: Value, ghost c: Contents)
      requires Shows(c)
      modifies this
      ensures store == old(store)[key := StateEntry(key, value, |old(store)|)]
      ensures Shows(c[key := value])
    {
      store := store[key := StateEntry(key, value, |store|)];
    }

    method Get(key: string, ghost c: Contents) returns (value: Option<Value>)
      requires Shows(c)
      ensures value == Lookup(c, key)
      ensures value == if key in store then Some(store[key].value) else None
    {
      value := if key in store then Some(store[key].value) else None;
    }
  }

  class TransactionLog {
    var entries: seq<Entry>

    constructor ()
      ensures entries == []
    {
      entries := [];
    }

    method Append(operation: string, key: string, value: Value)
      modifies this
      ensures entries == old(entries) + [Entry(operation, key, value)]
    {
      entries := entries + [Entry(operation, key, value)];
    }

    /** ok is false when the first index is out of range, which raises an error before any write. */
    method Replay(target: KVStore, fromIndex: int, ghost c: Contents) returns (ok: bool)
      requires target.Shows(c)
      modifies target
      ensures ok <==> ReplayedFrom(c, entries, fromIndex).Some?
      ensures target.Shows(if ok then ReplayedFrom(c, entries, fromIndex).value else c)
      ensures ok <==> fromIndex >= -|entries|
      ensures ok && fromIndex <= |entries| ==>
                Replays(target.Values(), c, entries, if fromIndex < 0 then 0 else fromIndex, |entries|)
    {
      var i := fromIndex;
      while i < |entries|
        invariant fromIndex < -|entries| ==> i == fromIndex
        invariant fromIndex <= i && (i <= |entries| || i == fromIndex)
        invariant target.Shows(PartlyReplayed(c, entries, fromIndex, i))
      {
        if i < -|entries| { return false; }
        OneMore(c, entries, fromIndex, i);
        ReplayEntry(target, entries[if i < 0 then |entries| + i else i], PartlyReplayed(c, entries, fromIndex, i));
        i := i + 1;
      }
      FinishReplay(target, fromIndex, c);
      return true;
    }

    lemma FinishReplay(target: KVStore, fromIndex: int, c: Contents)
      requires fromIndex >= -|entries| && target.Shows(ReplayedFrom(c, entries, fromIndex).value)
      ensures fromIndex <= |entries| ==>
                Replays(target.Values(), c, entries, if fromIndex < 0 then 0 else fromIndex, |entries|)
    {
      if fromIndex < 0 {
        NegativeReplaysAll(c, entries, fromIndex);
      }
      ReplayedReplays(c, entries, if fromIndex < 0 then 0 else fromIndex, |entries|);
      target.ShowsValues(ReplayedFrom(c, entries, fromIndex).value);
    }

    method ReplayEntry(target: KVStore, entry: Entry, ghost c: Contents)
      requires target.Shows(c)
      modifies target
      ensures target.Shows(Applied(c, entry))
    {
      if entry.operation == "write" {
        target.Put(entry.key, entry.value, c);
      }
    }
  }

  datatype RecoveryPoint = RecoveryPoint(snapshot: Contents, transactionIndex: nat)

  class CrashRecovery {
    const log: TransactionLog
    const state: KVStore
    var lastRecoveryPoint: Option<RecoveryPoint>

    constructor (log: TransactionLog, state: KVStore)
      ensures this.log == log && this.state == state && lastRecoveryPoint == None
    {
      this.log, this.state, lastRecoveryPoint := log, state, None;
    }

    /** The snapshot is left empty by the source. */
    method CreateRecoveryPoint() returns (point: RecoveryPoint)
      modifies this
      ensures point == RecoveryPoint(map[], |log.entries|) && lastRecoveryPoint == Some(point)
    {
      point := RecoveryPoint(map[], |log.entries|);
      lastRecoveryPoint := Some(point);
    }

    /** The store held the first j entries when it crashed. */
    method RecoverFromCrash(ghost base: Contents, ghost j: nat) returns (ok: bool)
      requires j <= |log.entries| && state.Shows(Replayed(base, log.entries, 0, j))
      modifies state
      ensures ok == lastRecoveryPoint.Some?
      ensures !ok ==> state.Shows(Replayed(base, log.entries, 0, j))
      ensures ok ==> state.Shows(Recovered(base, log.entries, j, lastRecoveryPoint.value.transactionIndex))
      ensures ok && lastRecoveryPoint.value.transactionIndex <= |log.entries| ==>
                Replays(state.Values(), Replayed(base, log.entries, 0, j), log.entries,
                    lastRecoveryPoint.value.transactionIndex, |log.entries|)
      ensures ok && lastRecoveryPoint.value.transactionIndex <= j ==>
                state.Shows(Replayed(base, log.entries, 0, |log.entries|))
                && Replays(state.Values(), base, log.entries, 0, |log.entries|)
    {
      if lastRecoveryPoint == None { return false; }
      var start := lastRecoveryPoint.value.transactionIndex;
      ok := log.Replay(state, start, Replayed(base, log.entries, 0, j));
      if start <= j {
        LaterCrashRecovers(base, log.entries, j, start);
        ReplayedReplays(base, log.entries, 0, |log.entries|);
        state.ShowsValues(Replayed(base, log.entries, 0, |log.entries|));
      }
    }
  }
}
