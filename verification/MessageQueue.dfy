/**
 * The retry queue (messaging/queue.py). Handlers are an oracle: raises(k) says
 * whether the k-th handler call of a run raises. They do not touch the queue.
 */
module MessageQueues {
  import opened Wrappers
  import opened Sequences

  class QueuedMessage {
    const id: string
    const source: string
    const hasHandler: bool
    const priority: int
    const maxRetries: int
    var retryCount: int

    constructor (id: string, source: string, hasHandler: bool, priority: int := 0, maxRetries: int := 3)
      ensures this.id == id && this.source == source && this.hasHandler == hasHandler
      ensures this.priority == priority && this.maxRetries == maxRetries && retryCount == 0
    {
      this.id, this.source, this.hasHandler, this.priority, this.maxRetries
          := id, source, hasHandler, priority, maxRetries;
      retryCount := 0;
    }
  }

  // ----- specification -----

  /** One handler call: whether it raised, and the message's retry count afterwards. */
  datatype Attempt = Attempt(msg: QueuedMessage, raised: bool, retries: int)

  type Retries = map<QueuedMessage, int>

  /**
   * The queue, the retry counts, and where the messages taken off it so far went.
   * The same message object may sit in the queue more than once.
   */
  datatype State = State(queue: seq<QueuedMessage>, retry: Retries, attempts: seq<Attempt>,
                         processed: seq<QueuedMessage>, exhausted: seq<QueuedMessage>,
                         unhandled: seq<QueuedMessage>, refused: seq<QueuedMessage>)

  function Initial(queue: seq<QueuedMessage>, retry: Retries): State {
    State(queue, retry, [], [], [], [], [])
  }

  ghost predicate Known(queue: seq<QueuedMessage>, retry: Retries) {
    forall m :: m in queue ==> m in retry
  }

  /** Handling m, which has just left the queue. */
  function Handle(s: State, m: QueuedMessage, raises: nat -> bool, maxSize: int): State
    requires m in s.retry
  {
    var r := s.retry[m] + 1;
    if !m.hasHandler then s.(unhandled := s.unhandled + [m])
    else if !raises(|s.attempts|) then
      s.(attempts := s.attempts + [Attempt(m, false, r - 1)], processed := s.processed + [m])
    else
      var t := s.(attempts := s.attempts + [Attempt(m, true, r)], retry := s.retry[m := r]);
      if r >= m.maxRetries then t.(exhausted := t.exhausted + [m])
      else if |t.queue| >= maxSize then t.(refused := t.refused + [m])
      else t.(queue := t.queue + [m])
  }

  /** One iteration of process_all. */
  function One(s: State, raises: nat -> bool, maxSize: int): State
    requires s.queue != [] && Known(s.queue, s.retry)
  {
    Handle(s.(queue := s.queue[1..]), s.queue[0], raises, maxSize)
  }

  // ----- termination -----

  /** How often m may still be attempted. */
  function Budget(m: QueuedMessage, retry: Retries): nat
    requires m in retry
  {
    if m.hasHandler && m.maxRetries - retry[m] > 1 then m.maxRetries - retry[m] else 1
  }

  /** The budgets of the queued messages that sel picks. */
  function Work(queue: seq<QueuedMessage>, retry: Retries, sel: QueuedMessage -> bool): nat
    requires Known(queue, retry)
  {
    if queue == [] then 0 else
      (if sel(queue[0]) then Budget(queue[0], retry) else 0) + Work(queue[1..], retry, sel)
  }

  function Everyone(m: QueuedMessage): bool { true }

  lemma {:induction false} WorkAppends(queue: seq<QueuedMessage>, m: QueuedMessage,
                                       retry: Retries, sel: QueuedMessage -> bool)
    requires Known(queue, retry) && m in retry
    ensures Known(queue + [m], retry)
    ensures Work(queue + [m], retry, sel) == Work(queue, retry, sel) + if sel(m) then Budget(m, retry) else 0
  {
    if queue == [] {
      assert queue + [m] == [m] && [m][1..] == [];
    } else {
      WorkAppends(queue[1..], m, retry, sel);
      assert (queue + [m])[1..] == queue[1..] + [m];
    }
  }

  /** A failed attempt never raises the work left in other places of the queue. */
  lemma {:induction false} WorkAfterFailure(queue: seq<QueuedMessage>, m: QueuedMessage,
                                            retry: Retries, sel: QueuedMessage -> bool)
    requires Known(queue, retry) && m in retry
    ensures Known(queue, retry[m := retry[m] + 1])
    ensures Work(queue, retry[m := retry[m] + 1], sel) <= Work(queue, retry, sel)
  {
    if queue != [] {
      WorkAfterFailure(queue[1..], m, retry, sel);
    }
  }

  /** Every iteration uses up work: of each kind of message, at least as much as it makes attempts. */
  lemma OneUsesWork(s: State, raises: nat -> bool, maxSize: int, sel: QueuedMessage -> bool)
    requires s.queue != [] && Known(s.queue, s.retry)
    ensures var t := One(s, raises, maxSize);
            && Known(t.queue, t.retry)
            && Work(t.queue, t.retry, sel) + (if sel(s.queue[0]) then 1 else 0) <= Work(s.queue, s.retry, sel)
  {
    var m, rest := s.queue[0], s.queue[1..];
    var t := One(s, raises, maxSize);
    if m.hasHandler && raises(|s.attempts|) {
      WorkAfterFailure(rest, m, s.retry, sel);
      WorkAppends(rest, m, t.retry, sel);
    }
  }

  /** process_all: iterate until the queue is empty. */
  function Drain(s: State, raises: nat -> bool, maxSize: int): State
    requires Known(s.queue, s.retry)
    decreases Work(s.queue, s.retry, Everyone)
  {
    if s.queue == [] then s else
      OneUsesWork(s, raises, maxSize, Everyone);
      Drain(One(s, raises, maxSize), raises, maxSize)
  }

  // ----- conservation -----

  /** How often m is anywhere: still queued, or in one of the four outcomes. */
  ghost function Places(s: State, m: QueuedMessage): nat {
    multiset(s.queue)[m] + multiset(s.processed)[m] + multiset(s.exhausted)[m]
    + multiset(s.unhandled)[m] + multiset(s.refused)[m]
  }

  lemma HandlePlaces(s: State, x: QueuedMessage, raises: nat -> bool, maxSize: int, m: QueuedMessage)
    requires x in s.retry
    ensures Places(Handle(s, x, raises, maxSize), m) == Places(s, m) + if x == m then 1 else 0
  {
    if !x.hasHandler {
      OneMoreOccurrence(s.unhandled, x, m);
    } else if !raises(|s.attempts|) {
      OneMoreOccurrence(s.processed, x, m);
    } else if s.retry[x] + 1 >= x.maxRetries {
      OneMoreOccurrence(s.exhausted, x, m);
    } else if |s.queue| >= maxSize {
      OneMoreOccurrence(s.refused, x, m);
    } else {
      OneMoreOccurrence(s.queue, x, m);
    }
  }

  lemma OnePlaces(s: State, raises: nat -> bool, maxSize: int, m: QueuedMessage)
    requires s.queue != [] && Known(s.queue, s.retry)
    ensures Places(One(s, raises, maxSize), m) == Places(s, m)
  {
    assert s.queue == [s.queue[0]] + s.queue[1..];
    HandlePlaces(s.(queue := s.queue[1..]), s.queue[0], raises, maxSize, m);
  }

  /** The number of calls of m's handler in the log, all of them or only those that raised. */
  function Calls(attempts: seq<Attempt>, m: QueuedMessage, failedOnly: bool): nat {
    if attempts == [] then 0 else
      var last := attempts[|attempts| - 1];
      Calls(attempts[..|attempts| - 1], m, failedOnly) + if last.msg == m && (last.raised || !failedOnly) then 1 else 0
  }

  lemma CallsAppend(attempts: seq<Attempt>, a: Attempt, m: QueuedMessage, failedOnly: bool)
    ensures Calls(attempts + [a], m, failedOnly)
         == Calls(attempts, m, failedOnly) + if a.msg == m && (a.raised || !failedOnly) then 1 else 0
  {
    assert (attempts + [a])[..|attempts|] == attempts;
  }

  /** What one iteration does to m: it stays in as many places, and its log and retry count move together. */
  lemma OneAccounts(s: State, raises: nat -> bool, maxSize: int, m: QueuedMessage)
    requires s.queue != [] && Known(s.queue, s.retry)
    ensures var t := One(s, raises, maxSize);
            && t.retry.Keys == s.retry.Keys
            && Calls(t.attempts, m, false) <= Calls(s.attempts, m, false) + (if s.queue[0] == m then 1 else 0)
            && (m in s.retry ==> t.retry[m] - s.retry[m] == Calls(t.attempts, m, true) - Calls(s.attempts, m, true))
  {
    var x := s.queue[0];
    if x.hasHandler {
      var raised := raises(|s.attempts|);
      var a := Attempt(x, raised, if raised then s.retry[x] + 1 else s.retry[x]);
      assert One(s, raises, maxSize).attempts == s.attempts + [a];
      CallsAppend(s.attempts, a, m, true);
      CallsAppend(s.attempts, a, m, false);
    }
  }

  /**
   * Draining conserves: every message that was queued ends, as often as it was
   * queued, in exactly one outcome; retry counts grow by the failed calls; and
   * no handler is called more often than its message's queued budgets allow.
   */
  lemma {:induction false} DrainConserves(s: State, raises: nat -> bool, maxSize: int, m: QueuedMessage)
    requires Known(s.queue, s.retry)
    ensures var t := Drain(s, raises, maxSize);
            && t.queue == [] && t.retry.Keys == s.retry.Keys
            && Places(t, m) == Places(s, m)
            && Calls(t.attempts, m, false) <= Calls(s.attempts, m, false) + Work(s.queue, s.retry, x => x == m)
            && (m in s.retry ==> t.retry[m] - s.retry[m] == Calls(t.attempts, m, true) - Calls(s.attempts, m, true))
    decreases Work(s.queue, s.retry, Everyone)
  {
    if s.queue != [] {
      var u := One(s, raises, maxSize);
      OneUsesWork(s, raises, maxSize, Everyone);
      OneUsesWork(s, raises, maxSize, x => x == m);
      OnePlaces(s, raises, maxSize, m);
      OneAccounts(s, raises, maxSize, m);
      DrainConserves(u, raises, maxSize, m);
    }
  }

  /** A retry is never refused for capacity: the message has just made room for itself. */
  lemma {:induction false} RetryNeverRefused(s: State, raises: nat -> bool, maxSize: int)
    requires Known(s.queue, s.retry) && |s.queue| <= maxSize
    ensures Drain(s, raises, maxSize).refused == s.refused
    decreases Work(s.queue, s.retry, Everyone)
  {
    if s.queue != [] {
      OneUsesWork(s, raises, maxSize, Everyone);
      RetryNeverRefused(One(s, raises, maxSize), raises, maxSize);
    }
  }

  /** A message queued once is called at most max(1, maxRetries - retryCount) times. */
  lemma {:induction false} QueuedOnce(queue: seq<QueuedMessage>, retry: Retries, m: QueuedMessage)
    requires Known(queue, retry)
    ensures multiset(queue)[m] == 0 ==> Work(queue, retry, x => x == m) == 0
    ensures multiset(queue)[m] == 1 ==> Work(queue, retry, x => x == m) == Budget(m, retry)
  {
    if queue != [] {
      assert queue == [queue[0]] + queue[1..];
      QueuedOnce(queue[1..], retry, m);
    }
  }

  // ----- outcomes read from the calls -----

  /** The positions of the calls that sel picks. */
  function Indices(attempts: seq<Attempt>, sel: Attempt -> bool): set<int> {
    set i | 0 <= i < |attempts| && sel(attempts[i])
  }

  lemma IndicesAppend(attempts: seq<Attempt>, a: Attempt, sel: Attempt -> bool)
    ensures |Indices(attempts + [a], sel)| == |Indices(attempts, sel)| + if sel(a) then 1 else 0
  {
    var n := |attempts|;
    assert Indices(attempts + [a], sel) == Indices(attempts, sel) + if sel(a) then {n} else {};
  }

  /** The messages of the calls that sel picks, in order. */
  function Picked(attempts: seq<Attempt>, sel: Attempt -> bool): seq<QueuedMessage> {
    if attempts == [] then [] else
      var n := |attempts| - 1;
      Picked(attempts[..n], sel) + if sel(attempts[n]) then [attempts[n].msg] else []
  }

  lemma PickedAppend(attempts: seq<Attempt>, a: Attempt, sel: Attempt -> bool)
    ensures Picked(attempts + [a], sel) == Picked(attempts, sel) + if sel(a) then [a.msg] else []
  {
    assert (attempts + [a])[..|attempts|] == attempts;
  }

  lemma {:induction false} PickedCount(attempts: seq<Attempt>, sel: Attempt -> bool, both: Attempt -> bool,
                                       m: QueuedMessage)
    requires forall a :: both(a) <==> a.msg == m && sel(a)
    ensures |Picked(attempts, sel)| == |Indices(attempts, sel)|
    ensures multiset(Picked(attempts, sel))[m] == |Indices(attempts, both)|
  {
    if attempts != [] {
      var n := |attempts| - 1;
      PickedCount(attempts[..n], sel, both, m);
      assert attempts == attempts[..n] + [attempts[n]];
      IndicesAppend(attempts[..n], attempts[n], sel);
      IndicesAppend(attempts[..n], attempts[n], both);
    }
  }

  function Returned(a: Attempt): bool { !a.raised }

  /** The call raised and left no retry. */
  function GaveUp(a: Attempt): bool { a.raised && a.retries >= a.msg.maxRetries }

  /** Each call was of a handler, and did what that handler did. */
  ghost predicate Follows(attempts: seq<Attempt>, raises: nat -> bool) {
    forall i :: 0 <= i < |attempts| ==> attempts[i].msg.hasHandler && attempts[i].raised == raises(i)
  }

  /** The outcomes are those of the calls. */
  ghost predicate Recorded(s: State) {
    && s.processed == Picked(s.attempts, Returned) && s.exhausted == Picked(s.attempts, GaveUp)
    && (forall i :: 0 <= i < |s.unhandled| ==> !s.unhandled[i].hasHandler)
  }

  /** The call noted its message's retry count: as before, and one more for each call so far that raised. */
  ghost predicate CountedAt(attempts: seq<Attempt>, r: Retries, i: nat)
    requires i < |attempts|
  {
    var a := attempts[i];
    a.msg in r && a.retries == r[a.msg] + Calls(attempts[..i + 1], a.msg, true)
  }

  ghost predicate Counted(s: State, r: Retries) {
    && r.Keys == s.retry.Keys
    && (forall m :: m in r ==> s.retry[m] == r[m] + Calls(s.attempts, m, true))
    && (forall i :: 0 <= i < |s.attempts| ==> CountedAt(s.attempts, r, i))
  }

  /** One iteration, field by field. */
  lemma OneFields(s: State, raises: nat -> bool, maxSize: int) returns (a: Attempt)
    requires s.queue != [] && Known(s.queue, s.retry)
    ensures var x, raised := s.queue[0], raises(|s.attempts|);
            a == Attempt(x, raised, if raised then s.retry[x] + 1 else s.retry[x])
    ensures var x, t := s.queue[0], One(s, raises, maxSize);
            && t.attempts == s.attempts + (if x.hasHandler then [a] else [])
            && t.processed == s.processed + (if x.hasHandler && Returned(a) then [x] else [])
            && t.exhausted == s.exhausted + (if x.hasHandler && GaveUp(a) then [x] else [])
            && t.unhandled == s.unhandled + (if x.hasHandler then [] else [x])
            && t.retry == if x.hasHandler && a.raised then s.retry[x := a.retries] else s.retry
  {
    var x, raised := s.queue[0], raises(|s.attempts|);
    a := Attempt(x, raised, if raised then s.retry[x] + 1 else s.retry[x]);
  }

  lemma OneRecorded(s: State, raises: nat -> bool, maxSize: int)
    requires s.queue != [] && Known(s.queue, s.retry) && Recorded(s) && Follows(s.attempts, raises)
    ensures Recorded(One(s, raises, maxSize)) && Follows(One(s, raises, maxSize).attempts, raises)
  {
    var a := OneFields(s, raises, maxSize);
    PickedAppend(s.attempts, a, Returned);
    PickedAppend(s.attempts, a, GaveUp);
    assert s.attempts + [] == s.attempts && s.processed + [] == s.processed && s.exhausted + [] == s.exhausted;
  }

  lemma CountedAppend(attempts: seq<Attempt>, a: Attempt, r: Retries)
    requires forall i :: 0 <= i < |attempts| ==> CountedAt(attempts, r, i)
    requires a.msg in r && a.retries == r[a.msg] + Calls(attempts, a.msg, true) + if a.raised then 1 else 0
    ensures forall i :: 0 <= i < |attempts + [a]| ==> CountedAt(attempts + [a], r, i)
  {
    var all := attempts + [a];
    forall i | 0 <= i < |all| ensures CountedAt(all, r, i) {
      if i < |attempts| {
        assert CountedAt(attempts, r, i) && all[..i + 1] == attempts[..i + 1];
      } else {
        assert all[..i + 1] == all;
        CallsAppend(attempts, a, a.msg, true);
      }
    }
  }

  lemma OneCounted(s: State, raises: nat -> bool, maxSize: int, r: Retries)
    requires s.queue != [] && Known(s.queue, s.retry) && Counted(s, r)
    ensures Counted(One(s, raises, maxSize), r)
  {
    var a := OneFields(s, raises, maxSize);
    if s.queue[0].hasHandler {
      CountedAppend(s.attempts, a, r);
      forall m | m in r { CallsAppend(s.attempts, a, m, true); }
    } else {
      assert s.attempts + [] == s.attempts;
    }
  }

  lemma {:induction false} DrainRecorded(s: State, raises: nat -> bool, maxSize: int, r: Retries)
    requires Known(s.queue, s.retry) && Recorded(s) && Follows(s.attempts, raises) && Counted(s, r)
    ensures var t := Drain(s, raises, maxSize); Recorded(t) && Follows(t.attempts, raises) && Counted(t, r)
    decreases Work(s.queue, s.retry, Everyone)
  {
    if s.queue != [] {
      OneUsesWork(s, raises, maxSize, Everyone);
      OneRecorded(s, raises, maxSize);
      OneCounted(s, raises, maxSize, r);
      DrainRecorded(One(s, raises, maxSize), raises, maxSize, r);
    }
  }

  /** The number of calls of m's handler, or of those that raised, as a number of positions. */
  lemma {:induction false} CallsAreIndices(attempts: seq<Attempt>, m: QueuedMessage, sel: Attempt -> bool)
    requires forall a :: sel(a) <==> a.msg == m && a.raised
    ensures Calls(attempts, m, true) == |Indices(attempts, sel)|
  {
    if attempts != [] {
      var n := |attempts| - 1;
      CallsAreIndices(attempts[..n], m, sel);
      assert attempts == attempts[..n] + [attempts[n]];
      IndicesAppend(attempts[..n], attempts[n], sel);
    }
  }

  /** The calls of m that ended it: those that returned, and those that raised with no retry left. */
  ghost function Ending(attempts: seq<Attempt>, m: QueuedMessage): set<int> {
    set i | 0 <= i < |attempts| && attempts[i].msg == m
            && (!attempts[i].raised || attempts[i].retries >= m.maxRetries)
  }

  lemma ProcessedCount(attempts: seq<Attempt>, m: QueuedMessage)
    ensures |Picked(attempts, Returned)| == |set i | 0 <= i < |attempts| && !attempts[i].raised|
    ensures multiset(Picked(attempts, Returned))[m]
         == |set i | 0 <= i < |attempts| && attempts[i].msg == m && !attempts[i].raised|
  {
    var returned := (x: Attempt) => x.msg == m && Returned(x);
    PickedCount(attempts, Returned, returned, m);
    assert Indices(attempts, Returned) == set i | 0 <= i < |attempts| && !attempts[i].raised;
    assert Indices(attempts, returned) == set i | 0 <= i < |attempts| && attempts[i].msg == m && !attempts[i].raised;
  }

  predicate Ends(a: Attempt, m: QueuedMessage) {
    a.msg == m && (Returned(a) || GaveUp(a))
  }

  lemma EndingAppend(attempts: seq<Attempt>, a: Attempt, m: QueuedMessage)
    ensures |Ending(attempts + [a], m)| == |Ending(attempts, m)| + if Ends(a, m) then 1 else 0
  {
    assert Ending(attempts + [a], m) == Ending(attempts, m) + if Ends(a, m) then {|attempts|} else {};
  }

  lemma {:induction false} EndingCount(attempts: seq<Attempt>, m: QueuedMessage)
    ensures multiset(Picked(attempts, Returned))[m] + multiset(Picked(attempts, GaveUp))[m] == |Ending(attempts, m)|
  {
    if attempts == [] {
      assert Ending(attempts, m) == {};
    } else {
      var n := |attempts| - 1;
      var before, last := attempts[..n], attempts[n];
      EndingCount(before, m);
      assert attempts == before + [last];
      EndingAppend(before, last, m);
      OneMoreOccurrence(Picked(before, Returned), last.msg, m);
      OneMoreOccurrence(Picked(before, GaveUp), last.msg, m);
    }
  }

  /** The retry count noted by the i-th call is the one before plus the calls of its message so far that raised. */
  lemma RetriesNoted(attempts: seq<Attempt>, r: Retries, i: nat)
    requires i < |attempts| && CountedAt(attempts, r, i)
    ensures attempts[i].msg in r
    ensures attempts[i].retries == r[attempts[i].msg]
              + |set j | 0 <= j <= i && attempts[j].msg == attempts[i].msg && attempts[j].raised|
  {
    var m := attempts[i].msg;
    var failed := (x: Attempt) => x.msg == m && x.raised;
    CallsAreIndices(attempts[..i + 1], m, failed);
    assert Indices(attempts[..i + 1], failed) == set j | 0 <= j <= i && attempts[j].msg == m && attempts[j].raised;
  }

  /** The calls of a drain, and how many of them returned. */
  lemma DrainCalls(queue: seq<QueuedMessage>, retry: Retries, raises: nat -> bool, maxSize: int)
    requires Known(queue, retry)
    ensures var t := Drain(Initial(queue, retry), raises, maxSize);
            && |t.processed| == |set i | 0 <= i < |t.attempts| && !t.attempts[i].raised|
            && Follows(t.attempts, raises)
            && forall i :: 0 <= i < |t.attempts| ==> CountedAt(t.attempts, retry, i)
  {
    var s := Initial(queue, retry);
    var t := Drain(s, raises, maxSize);
    DrainRecorded(s, raises, maxSize, retry);
    if t.attempts != [] {
      ProcessedCount(t.attempts, t.attempts[0].msg);
    }
  }

  lemma NeverEnding(attempts: seq<Attempt>, raises: nat -> bool, m: QueuedMessage)
    requires Follows(attempts, raises) && !m.hasHandler
    ensures |Ending(attempts, m)| == 0
  {
    assert Ending(attempts, m) == {};
  }

  /**
   * What becomes of every message, read from the calls alone. It is called only
   * if it has a handler; each time it was queued ends with one call that returns,
   * or that raises with no retry left. It counts as processed exactly as often as
   * its handler returned.
   */
  lemma DrainOutcome(queue: seq<QueuedMessage>, retry: Retries, raises: nat -> bool, maxSize: int, m: QueuedMessage)
    requires Known(queue, retry) && |queue| <= maxSize
    ensures var t := Drain(Initial(queue, retry), raises, maxSize);
            && (m.hasHandler ==> |Ending(t.attempts, m)| == multiset(queue)[m])
            && multiset(t.processed)[m] + multiset(t.exhausted)[m] == |Ending(t.attempts, m)|
            && multiset(t.processed)[m]
               == |set i | 0 <= i < |t.attempts| && t.attempts[i].msg == m && !t.attempts[i].raised|
            && multiset(t.unhandled)[m] == if m.hasHandler then 0 else multiset(queue)[m]
  {
    var s := Initial(queue, retry);
    var t := Drain(s, raises, maxSize);
    DrainConserves(s, raises, maxSize, m);
    RetryNeverRefused(s, raises, maxSize);
    DrainRecorded(s, raises, maxSize, retry);
    ProcessedCount(t.attempts, m);
    EndingCount(t.attempts, m);
    if m.hasHandler {
      assert m !in t.unhandled;
    } else {
      NeverEnding(t.attempts, raises, m);
    }
  }

  // ----- rounds -----

  /** A round: each listed message in turn; retries wait in the queue of the result. */
  function Sweep(todo: seq<QueuedMessage>, s: State, raises: nat -> bool, maxSize: int): State
    requires Known(todo, s.retry)
  {
    if todo == [] then s else Sweep(todo[1..], Handle(s, todo[0], raises, maxSize), raises, maxSize)
  }

  function Handled(ms: seq<QueuedMessage>): seq<QueuedMessage> {
    if ms == [] then [] else if ms[0].hasHandler then [ms[0]] + Handled(ms[1..]) else Handled(ms[1..])
  }

  function Called(attempts: seq<Attempt>): (ms: seq<QueuedMessage>)
    ensures |ms| == |attempts|
  {
    if attempts == [] then [] else [attempts[0].msg] + Called(attempts[1..])
  }

  predicate WillRetry(a: Attempt) {
    a.raised && a.retries < a.msg.maxRetries
  }

  /** The messages whose call raised with retry budget left, in order. */
  function Retried(attempts: seq<Attempt>): seq<QueuedMessage> {
    if attempts == [] then []
    else if WillRetry(attempts[0]) then [attempts[0].msg] + Retried(attempts[1..])
    else Retried(attempts[1..])
  }

  /** Draining a queue whose front is todo sweeps todo first, as long as retries fit. */
  lemma {:induction false} DrainSweeps(todo: seq<QueuedMessage>, s: State, raises: nat -> bool, maxSize: int)
    requires Known(todo, s.retry) && Known(s.queue, s.retry) && |todo| + |s.queue| <= maxSize
    ensures Known(todo + s.queue, s.retry)
    ensures var t := Sweep(todo, s, raises, maxSize);
            && Known(t.queue, t.retry) && |t.queue| <= maxSize
            && Drain(s.(queue := todo + s.queue), raises, maxSize) == Drain(t, raises, maxSize)
  {
    if todo == [] {
      assert todo + s.queue == s.queue;
    } else {
      var all := s.(queue := todo + s.queue);
      var h := Handle(s, todo[0], raises, maxSize);
      var one := One(all, raises, maxSize);
      assert all.queue[1..] == todo[1..] + s.queue;
      assert one == h.(queue := todo[1..] + h.queue);
      DrainSweeps(todo[1..], h, raises, maxSize);
    }
  }

  /** What handling one message adds to the log and to the queue. */
  lemma HandleCalls(s: State, m: QueuedMessage, raises: nat -> bool, maxSize: int) returns (calls: seq<Attempt>)
    requires m in s.retry && |s.queue| < maxSize
    ensures var h := Handle(s, m, raises, maxSize);
            && h.attempts == s.attempts + calls
            && Called(calls) == (if m.hasHandler then [m] else [])
            && h.queue == s.queue + Retried(calls)
            && h.retry.Keys == s.retry.Keys
  {
    calls := Handle(s, m, raises, maxSize).attempts[|s.attempts|..];
    if calls != [] {
      assert calls[1..] == [];
    }
  }

  lemma {:induction false} CalledConcat(a: seq<Attempt>, b: seq<Attempt>)
    ensures Called(a + b) == Called(a) + Called(b)
  {
    if a == [] {
      assert a + b == b;
    } else {
      var rest := a[1..] + b;
      assert (a + b)[0] == a[0] && (a + b)[1..] == rest;
      CalledConcat(a[1..], b);
      Associates([a[0].msg], Called(a[1..]), Called(b));
    }
  }

  lemma {:induction false} RetriedConcat(a: seq<Attempt>, b: seq<Attempt>)
    ensures Retried(a + b) == Retried(a) + Retried(b)
  {
    if a == [] {
      assert a + b == b;
    } else {
      var rest := a[1..] + b;
      assert (a + b)[0] == a[0] && (a + b)[1..] == rest;
      RetriedConcat(a[1..], b);
      Associates([a[0].msg], Retried(a[1..]), Retried(b));
    }
  }

  /** What one round adds to the log: one call per handled message, in order; its failures with budget left wait. */
  lemma {:induction false} SweepCalls(todo: seq<QueuedMessage>, s: State, raises: nat -> bool, maxSize: int)
    returns (calls: seq<Attempt>)
    requires Known(todo, s.retry) && |todo| + |s.queue| <= maxSize
    ensures var t := Sweep(todo, s, raises, maxSize);
            && t.attempts == s.attempts + calls
            && Called(calls) == Handled(todo)
            && t.queue == s.queue + Retried(calls)
  {
    if todo == [] {
      calls := [];
    } else {
      var first := HandleCalls(s, todo[0], raises, maxSize);
      var later := SweepCalls(todo[1..], Handle(s, todo[0], raises, maxSize), raises, maxSize);
      calls := first + later;
      CalledConcat(first, later);
      RetriedConcat(first, later);
      Associates(s.attempts, first, later);
      Associates(s.queue, Retried(first), Retried(later));
    }
  }

  /** rounds starts with one call per handled message of queue; each later round retries its predecessor's failures. */
  ghost predicate AreRounds(queue: seq<QueuedMessage>, rounds: seq<seq<Attempt>>)
    decreases |rounds|
  {
    if rounds == [] then queue == [] else
      queue != [] && Called(rounds[0]) == Handled(queue) && AreRounds(Retried(rounds[0]), rounds[1..])
  }

  function Concat(rounds: seq<seq<Attempt>>): seq<Attempt> {
    if rounds == [] then [] else rounds[0] + Concat(rounds[1..])
  }

  lemma {:induction false} SweepUsesWork(todo: seq<QueuedMessage>, s: State, raises: nat -> bool, maxSize: int)
    requires Known(todo, s.retry) && Known(s.queue, s.retry) && |todo| + |s.queue| <= maxSize
    ensures Known(todo + s.queue, s.retry)
    ensures var t := Sweep(todo, s, raises, maxSize);
            Known(t.queue, t.retry)
            && Work(t.queue, t.retry, Everyone) + |todo| <= Work(todo + s.queue, s.retry, Everyone)
  {
    if todo == [] {
      assert todo + s.queue == s.queue;
    } else {
      var h := Handle(s, todo[0], raises, maxSize);
      var all := s.(queue := todo + s.queue);
      assert all.queue[1..] == todo[1..] + s.queue;
      assert One(all, raises, maxSize) == h.(queue := todo[1..] + h.queue);
      OneUsesWork(all, raises, maxSize, Everyone);
      SweepUsesWork(todo[1..], h, raises, maxSize);
    }
  }

  /** The largest budget of a listed message. */
  function MostBudget(queue: seq<QueuedMessage>, retry: Retries): nat
    requires Known(queue, retry)
  {
    if queue == [] then 0 else
      var rest := MostBudget(queue[1..], retry);
      if Budget(queue[0], retry) < rest then rest else Budget(queue[0], retry)
  }

  lemma {:induction false} BudgetWithin(queue: seq<QueuedMessage>, retry: Retries, m: QueuedMessage)
    requires Known(queue, retry) && m in queue
    ensures 1 <= Budget(m, retry) <= MostBudget(queue, retry)
  {
    if m != queue[0] {
      BudgetWithin(queue[1..], retry, m);
    }
  }

  lemma {:induction false} MostBudgetWithin(queue: seq<QueuedMessage>, retry: Retries, bound: nat)
    requires Known(queue, retry) && forall m :: m in queue ==> Budget(m, retry) <= bound
    ensures MostBudget(queue, retry) <= bound
  {
    if queue != [] {
      MostBudgetWithin(queue[1..], retry, bound);
    }
  }

  /** After a round from r, m waits for a retry that has cost it one of its budget. */
  ghost predicate Aged(m: QueuedMessage, r: Retries, retry: Retries) {
    m in r && m in retry && m.hasHandler && r[m] + 1 <= retry[m] && r[m] + 1 < m.maxRetries
  }

  ghost predicate NoYounger(r: Retries, retry: Retries) {
    r.Keys == retry.Keys && forall m :: m in r ==> r[m] <= retry[m]
  }

  lemma {:induction false} SweepAges(todo: seq<QueuedMessage>, s: State, raises: nat -> bool, maxSize: int,
                                     r: Retries, from: seq<QueuedMessage>)
    requires Known(todo, s.retry) && NoYounger(r, s.retry)
    requires forall m :: m in s.queue ==> Aged(m, r, s.retry) && m in from
    requires forall m :: m in todo ==> m in from
    ensures var t := Sweep(todo, s, raises, maxSize);
            NoYounger(r, t.retry) && forall m :: m in t.queue ==> Aged(m, r, t.retry) && m in from
  {
    if todo != [] {
      SweepAges(todo[1..], Handle(s, todo[0], raises, maxSize), raises, maxSize, r, from);
    }
  }

  lemma RoundBudget(s: State, raises: nat -> bool, maxSize: int)
    requires s.queue != [] && Known(s.queue, s.retry)
    ensures var t := Sweep(s.queue, s.(queue := []), raises, maxSize);
            Known(t.queue, t.retry) && MostBudget(t.queue, t.retry) < MostBudget(s.queue, s.retry)
  {
    var t := Sweep(s.queue, s.(queue := []), raises, maxSize);
    SweepAges(s.queue, s.(queue := []), raises, maxSize, s.retry, s.queue);
    BudgetWithin(s.queue, s.retry, s.queue[0]);
    forall m | m in t.queue ensures m in t.retry && Budget(m, t.retry) <= MostBudget(s.queue, s.retry) - 1 {
      BudgetWithin(s.queue, s.retry, m);
    }
    MostBudgetWithin(t.queue, t.retry, MostBudget(s.queue, s.retry) - 1);
  }

  /** One round is a sweep over the queue, and brings down every budget that is left. */
  lemma OneRound(s: State, raises: nat -> bool, maxSize: int) returns (calls: seq<Attempt>, t: State)
    requires s.queue != [] && Known(s.queue, s.retry) && |s.queue| <= maxSize
    ensures Known(t.queue, t.retry) && |t.queue| <= maxSize
    ensures Work(t.queue, t.retry, Everyone) < Work(s.queue, s.retry, Everyone)
    ensures MostBudget(t.queue, t.retry) < MostBudget(s.queue, s.retry)
    ensures Drain(s, raises, maxSize) == Drain(t, raises, maxSize)
    ensures t.attempts == s.attempts + calls && Called(calls) == Handled(s.queue) && t.queue == Retried(calls)
  {
    var start := s.(queue := []);
    t := Sweep(s.queue, start, raises, maxSize);
    assert s.queue + start.queue == s.queue;
    assert start.(queue := s.queue) == s;
    DrainSweeps(s.queue, start, raises, maxSize);
    SweepUsesWork(s.queue, start, raises, maxSize);
    calls := SweepCalls(s.queue, start, raises, maxSize);
    RoundBudget(s, raises, maxSize);
  }

  /**
   * process_all refines round-based retry: its handler calls are a concatenation
   * of rounds, no more of them than the largest budget in the queue.
   */
  lemma {:induction false} DrainInRounds(s: State, raises: nat -> bool, maxSize: int)
    returns (rounds: seq<seq<Attempt>>)
    requires Known(s.queue, s.retry) && |s.queue| <= maxSize
    ensures Drain(s, raises, maxSize).attempts == s.attempts + Concat(rounds)
    ensures AreRounds(s.queue, rounds) && |rounds| <= MostBudget(s.queue, s.retry)
    decreases Work(s.queue, s.retry, Everyone)
  {
    if s.queue == [] {
      rounds := [];
    } else {
      var first, t := OneRound(s, raises, maxSize);
      var later := DrainInRounds(t, raises, maxSize);
      rounds := [first] + later;
      assert rounds[1..] == later;
      Associates(s.attempts, first, Concat(later));
    }
  }

  // ----- priorities -----

  ghost predicate ByPriority(ms: seq<QueuedMessage>) {
    forall i, j :: 0 <= i < j < |ms| ==> ms[i].priority >= ms[j].priority
  }

  lemma {:induction false} InHandled(ms: seq<QueuedMessage>, m: QueuedMessage)
    ensures m in Handled(ms) <==> m in ms && m.hasHandler
  {
    if ms != [] {
      InHandled(ms[1..], m);
    }
  }

  lemma {:induction false} InRetried(calls: seq<Attempt>, m: QueuedMessage)
    requires m in Retried(calls)
    ensures m in Called(calls)
  {
    if calls[0].msg != m {
      InRetried(calls[1..], m);
    }
  }

  /** No round calls a message that the first one did not. */
  lemma {:induction false} RoundsWithin(queue: seq<QueuedMessage>, rounds: seq<seq<Attempt>>, m: QueuedMessage)
    requires AreRounds(queue, rounds) && m in Called(Concat(rounds))
    ensures m in Handled(queue)
    decreases |rounds|
  {
    CalledConcat(rounds[0], Concat(rounds[1..]));
    if m !in Called(rounds[0]) {
      RoundsWithin(Retried(rounds[0]), rounds[1..], m);
      InHandled(Retried(rounds[0]), m);
      InRetried(rounds[0], m);
    }
  }

  /**
   * The calls start with the queued messages that have a handler; what follows are
   * calls of those retried, all of them.
   */
  lemma FirstCalls(s: State, raises: nat -> bool, maxSize: int) returns (first: seq<Attempt>, later: seq<Attempt>)
    requires Known(s.queue, s.retry) && |s.queue| <= maxSize
    ensures Drain(s, raises, maxSize).attempts == s.attempts + (first + later)
    ensures Called(first) == Handled(s.queue)
    ensures forall m :: m in Called(later) ==> m in Retried(first)
    ensures forall m :: m in Retried(first) ==> m in Called(later)
  {
    var rounds := DrainInRounds(s, raises, maxSize);
    if rounds == [] {
      first, later := [], [];
    } else {
      first, later := rounds[0], Concat(rounds[1..]);
      forall m | m in Called(later) ensures m in Retried(first) {
        RoundsWithin(Retried(first), rounds[1..], m);
        InHandled(Retried(first), m);
      }
      forall m | m in Retried(first) ensures m in Called(later) {
        InRetried(first, m);
        InHandled(s.queue, m);
        InHandled(Retried(first), m);
        CalledConcat(rounds[1], Concat(rounds[2..]));
        assert rounds[1..][1..] == rounds[2..];
      }
    }
  }

  /**
   * A list whose second part repeats elements of the first is sorted when the first
   * is, and the repeated are its least.
   */
  lemma SortedConcat(a: seq<QueuedMessage>, b: seq<QueuedMessage>)
    requires forall m :: m in b ==> m in a
    ensures ByPriority(a + b) <==> ByPriority(a) && forall m, x :: m in b && x in a ==> m.priority <= x.priority
  {
    if ByPriority(a + b) {
      forall i, j | 0 <= i < j < |a| ensures a[i].priority >= a[j].priority {
        assert (a + b)[i] == a[i] && (a + b)[j] == a[j];
      }
      forall m, x | m in b && x in a ensures m.priority <= x.priority {
        var i :| 0 <= i < |a| && a[i] == x;
        var j :| 0 <= j < |b| && b[j] == m;
        assert (a + b)[i] == x && (a + b)[|a| + j] == m;
      }
    }
  }

  /**
   * Priorities play no part: the handlers are called by priority exactly when
   * the queued messages that have one are already in that order, and the
   * first round only retries messages of the lowest priority.
   */
  lemma PriorityCondition(s: State, raises: nat -> bool, maxSize: int) returns (first: seq<Attempt>)
    requires Known(s.queue, s.retry) && |s.queue| <= maxSize && s.attempts == []
    ensures first <= Drain(s, raises, maxSize).attempts && Called(first) == Handled(s.queue)
    ensures ByPriority(Called(Drain(s, raises, maxSize).attempts))
       <==> ByPriority(Handled(s.queue))
            && forall m, x :: m in Retried(first) && x in Handled(s.queue) ==> m.priority <= x.priority
  {
    var later;
    first, later := FirstCalls(s, raises, maxSize);
    CalledConcat(first, later);
    assert Drain(s, raises, maxSize).attempts == first + later;
    forall m | m in Called(later) ensures m in Called(first) {
      InRetried(first, m);
    }
    SortedConcat(Called(first), Called(later));
  }

  /** Two messages with handlers, the more urgent one queued last, are called in the order of the queue. */
  lemma UrgentComesLast(a: QueuedMessage, b: QueuedMessage, retry: Retries, raises: nat -> bool)
    requires a in retry && b in retry && a.hasHandler && b.hasHandler && a.priority < b.priority
    ensures !ByPriority(Called(Drain(Initial([a, b], retry), raises, 2).attempts))
  {
    var _ := PriorityCondition(Initial([a, b], retry), raises, 2);
    assert [a, b][1..] == [b] && Handled([b]) == [b];
    assert Handled([a, b]) == [a, b];
    assert !ByPriority([a, b]) by {
      assert [a, b][0].priority < [a, b][1].priority;
    }
  }

  class MessageQueue {
    var queue: seq<QueuedMessage>
    const maxSize: int
    var processedCount: nat

    constructor (maxSize: int := 10000)
      ensures queue == [] && this.maxSize == maxSize && processedCount == 0
    {
      queue, this.maxSize, processedCount := [], maxSize, 0;
    }

    method Enqueue(message: QueuedMessage) returns (ok: bool)
      modifies `queue
      ensures ok == (|old(queue)| < maxSize)
      ensures queue == if ok then old(queue) + [message] else old(queue)
    {
      if |queue| >= maxSize { return false; }
      queue := queue + [message];
      return true;
    }

    method Dequeue() returns (message: Option<QueuedMessage>)
      modifies `queue
      ensures old(queue) == [] ==> message == None && queue == []
      ensures old(queue) != [] ==> message == Some(old(queue)[0]) && queue == old(queue)[1..]
    {
      if queue == [] { return None; }
      message := Some(queue[0]);
      queue := queue[1..];
    }

    /** s has this queue, and the retry count of every message it knows. */
    ghost predicate Shows(s: State)
      reads this, s.retry.Keys
    {
      queue == s.queue && Known(s.queue, s.retry) && forall m :: m in s.retry ==> m.retryCount == s.retry[m]
    }

    /** attempts stands for the handler calls made, in order. */
    method ProcessAll(raises: nat -> bool, ghost before: State) returns (count: nat, attempts: seq<Attempt>)
      requires Shows(before) && before == Initial(before.queue, before.retry)
      modifies this, before.retry.Keys
      ensures var t := Drain(before, raises, maxSize);
              && Shows(t) && attempts == t.attempts
              && count == |t.processed| && processedCount == old(processedCount) + count
      ensures queue == []
      ensures count == |set i | 0 <= i < |attempts| && !attempts[i].raised|
      ensures forall i :: 0 <= i < |attempts| ==> attempts[i].msg.hasHandler && attempts[i].raised == raises(i)
      ensures forall i :: 0 <= i < |attempts| ==> CountedAt(attempts, before.retry, i)
    {
      count, attempts := 0, [];
      ghost var s := before;
      DrainCalls(before.queue, before.retry, raises, maxSize);
      while queue != []
        invariant Shows(s) && s.retry.Keys == before.retry.Keys
        invariant attempts == s.attempts && count == |s.processed| && processedCount == old(processedCount) + count
        invariant Drain(s, raises, maxSize) == Drain(before, raises, maxSize)
        decreases Work(s.queue, s.retry, Everyone)
      {
        OneUsesWork(s, raises, maxSize, Everyone);
        var done;
        done, attempts := ProcessNext(raises, attempts, s);
        if done {
          count := count + 1;
        }
        s := One(s, raises, maxSize);
      }
    }

    /** The body of the loop: take one message off and call its handler, if it has one. */
    method ProcessNext(raises: nat -> bool, attempts: seq<Attempt>, ghost s: State)
      returns (done: bool, after: seq<Attempt>)
      requires Shows(s) && queue != [] && attempts == s.attempts
      modifies this, s.retry.Keys
      ensures var t := One(s, raises, maxSize);
              && Shows(t) && t.retry.Keys == s.retry.Keys && after == t.attempts
              && |t.processed| == |s.processed| + (if done then 1 else 0)
              && processedCount == old(processedCount) + if done then 1 else 0
    {
      done, after := false, attempts;
      var next := Dequeue();
      var msg := next.value;
      if msg.hasHandler {
        if !raises(|attempts|) {
          after := attempts + [Attempt(msg, false, msg.retryCount)];
          processedCount := processedCount + 1;
          done := true;
        } else {
          msg.retryCount := msg.retryCount + 1;
          after := attempts + [Attempt(msg, true, msg.retryCount)];
          if msg.retryCount < msg.maxRetries {
            var ok := Enqueue(msg);
          }
        }
      }
    }
  }
}
