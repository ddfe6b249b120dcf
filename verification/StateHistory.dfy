/**
 * The bounded history of states with rewind and forward, and the validated
 * updates that feed it (cognitive/sim_state.py).
 */
module StateHistory {
  import opened Wrappers

  // ----- specification -----

  datatype History<T> = History(items: seq<T>, index: int)

  /** The source's s[:k], where a negative k counts from the end. */
  function SliceTo<T>(s: seq<T>, k: int): seq<T> {
    if k < 0 then s[..if |s| + k < 0 then 0 else |s| + k] else s[..if k < |s| then k else |s|]
  }

  /** limit None is the unbounded history. */
  function Pushed<T>(h: History<T>, x: T, limit: Option<int>): History<T> {
    var added := SliceTo(h.items, h.index + 1) + [x];
    if limit.Some? && |added| > limit.value then History(added[1..], h.index) else History(added, h.index + 1)
  }

  function Rewound<T>(h: History<T>, steps: int): (History<T>, bool) {
    if h.index - steps >= 0 then (h.(index := h.index - steps), true) else (h, false)
  }

  function Forwarded<T>(h: History<T>, steps: int): (History<T>, bool) {
    if h.index + steps < |h.items| then (h.(index := h.index + steps), true) else (h, false)
  }

  function CurrentOf<T>(h: History<T>): Option<T> {
    if 0 <= h.index < |h.items| then Some(h.items[h.index]) else None
  }

  datatype Op<T> = PushOp(x: T) | RewindOp(steps: nat) | ForwardOp(steps: nat)

  function Step<T>(h: History<T>, op: Op<T>, limit: Option<int>): (History<T>, bool) {
    match op
    case PushOp(x) => (Pushed(h, x, limit), true)
    case RewindOp(n) => Rewound(h, n)
    case ForwardOp(n) => Forwarded(h, n)
  }

  /** The index points at an item, or is -1 in an empty history. */
  ghost predicate InRange<T>(h: History<T>) {
    -1 <= h.index < |h.items| && (h.index == -1 <==> h.items == [])
  }

  // ----- what the operations do -----

  /**
   * With room for one state: a push makes its state the current and the last one,
   * so nothing is left to redo; before it stand the states up to the former current
   * one, less the oldest when there is one too many.
   */
  lemma PushMeaning<T>(h: History<T>, x: T, max: int)
    requires InRange(h) && max >= 1
    ensures var g := Pushed(h, x, Some(max));
            && InRange(g) && g.index == |g.items| - 1 && g.items[g.index] == x
            && CurrentOf(g) == Some(x) && !Forwarded(g, 1).1
            && g.items[..g.index] == if h.index + 1 < max then h.items[..h.index + 1] else h.items[1..h.index + 1]
  {
    var kept := h.items[..h.index + 1];
    assert SliceTo(h.items, h.index + 1) == kept;
    if h.index + 1 >= max {
      assert (kept + [x])[1..][..h.index] == h.items[1..h.index + 1];
    }
  }

  /** Rewinding goes back that many states if there are as many, and going forward again undoes it. */
  lemma RewindMeaning<T>(h: History<T>, n: nat)
    requires InRange(h)
    ensures Rewound(h, n).1 <==> n <= h.index
    ensures var (g, ok) := Rewound(h, n);
            if ok then CurrentOf(g) == Some(h.items[h.index - n]) && Forwarded(g, n) == (h, true) else g == h
  {
  }

  /** Going forward reaches that many states further if there are as many, and rewinding undoes it. */
  lemma ForwardMeaning<T>(h: History<T>, n: nat)
    requires InRange(h) && h.items != []
    ensures Forwarded(h, n).1 <==> n < |h.items| - h.index
    ensures var (g, ok) := Forwarded(h, n);
            if ok then CurrentOf(g) == Some(h.items[h.index + n]) && Rewound(g, n) == (h, true) else g == h
  {
  }

  /** Rewinding a push that evicts nothing restores the former current state, and redoing it the pushed one. */
  lemma PushUndone<T>(h: History<T>, x: T, max: int)
    requires InRange(h) && h.items != [] && h.index + 1 < max
    ensures var (g, ok) := Rewound(Pushed(h, x, Some(max)), 1);
            ok && CurrentOf(g) == CurrentOf(h) && CurrentOf(Forwarded(g, 1).0) == Some(x)
  {
    PushMeaning(h, x, max);
    var p := Pushed(h, x, Some(max));
    assert p.items[..p.index][h.index] == h.items[..h.index + 1][h.index];
  }

  // ----- simulation of unbounded undo and redo -----

  /** b is u without its first evicted items. */
  ghost predicate Simulates<T>(b: History<T>, u: History<T>, evicted: nat) {
    && InRange(b) && InRange(u) && evicted <= |u.items|
    && b.items == u.items[evicted..] && b.index == u.index - evicted
  }

  lemma CurrentAgrees<T>(b: History<T>, u: History<T>, evicted: nat)
    requires Simulates(b, u, evicted) && b.items != []
    ensures CurrentOf(b) == CurrentOf(u) && CurrentOf(b).Some?
  {
  }

  function EvictedBy<T>(b: History<T>, op: Op<T>, max: int): nat {
    if op.PushOp? && |SliceTo(b.items, b.index + 1)| + 1 > max then 1 else 0
  }

  /** The target of the rewind is still in the unbounded history but no longer in the bounded one. */
  predicate HitsEvicted<T>(u: History<T>, op: Op<T>, evicted: nat) {
    op.RewindOp? && 0 <= u.index - op.steps < evicted
  }

  lemma PushSimulates<T>(b: History<T>, u: History<T>, evicted: nat, x: T, max: int)
    requires Simulates(b, u, evicted)
    ensures Simulates(Pushed(b, x, Some(max)), Pushed(u, x, None), evicted + EvictedBy(b, PushOp(x), max))
  {
    var kept, all := SliceTo(b.items, b.index + 1), SliceTo(u.items, u.index + 1);
    assert kept == b.items[..b.index + 1] && all == u.items[..u.index + 1];
    assert kept == all[evicted..];
    assert kept + [x] == (all + [x])[evicted..];
    if |kept| + 1 > max {
      assert (kept + [x])[1..] == (all + [x])[evicted + 1..];
    }
  }

  /** Every operation agrees with the unbounded one, except a rewind to an evicted state, which is refused. */
  lemma StepSimulates<T>(b: History<T>, u: History<T>, evicted: nat, op: Op<T>, max: int)
    requires Simulates(b, u, evicted)
    ensures !HitsEvicted(u, op, evicted) ==>
              && Step(b, op, Some(max)).1 == Step(u, op, None).1
              && Simulates(Step(b, op, Some(max)).0, Step(u, op, None).0, evicted + EvictedBy(b, op, max))
    ensures HitsEvicted(u, op, evicted) ==> Step(b, op, Some(max)) == (b, false) && Step(u, op, None).1
  {
    if op.PushOp? {
      PushSimulates(b, u, evicted, op.x, max);
    }
  }

  /** A run of the bounded history beside the unbounded one, which skips the rewinds to evicted states. */
  datatype Pair<T> = Pair(bounded: History<T>, unbounded: History<T>, evicted: nat)

  function RunBoth<T>(ops: seq<Op<T>>, max: int): Pair<T> {
    if ops == [] then Pair(History([], -1), History([], -1), 0) else
      var p, op := RunBoth(ops[..|ops| - 1], max), ops[|ops| - 1];
      Pair(Step(p.bounded, op, Some(max)).0,
           if HitsEvicted(p.unbounded, op, p.evicted) then p.unbounded else Step(p.unbounded, op, None).0,
           p.evicted + EvictedBy(p.bounded, op, max))
  }

  function RunAlone<T>(ops: seq<Op<T>>, limit: Option<int>): History<T> {
    if ops == [] then History([], -1) else Step(RunAlone(ops[..|ops| - 1], limit), ops[|ops| - 1], limit).0
  }

  /** ops without the rewinds to evicted states. */
  function Kept<T>(ops: seq<Op<T>>, max: int): seq<Op<T>> {
    if ops == [] then [] else
      var p, op := RunBoth(ops[..|ops| - 1], max), ops[|ops| - 1];
      Kept(ops[..|ops| - 1], max) + if HitsEvicted(p.unbounded, op, p.evicted) then [] else [op]
  }

  /** Each reachable history is an unbounded one, run on the kept operations, with an evicted prefix removed. */
  lemma {:induction false} RunSimulates<T>(ops: seq<Op<T>>, max: int)
    ensures var p := RunBoth(ops, max);
            && p.bounded == RunAlone(ops, Some(max)) && p.unbounded == RunAlone(Kept(ops, max), None)
            && Simulates(p.bounded, p.unbounded, p.evicted)
  {
    if ops != [] {
      var n := |ops| - 1;
      RunSimulates(ops[..n], max);
      var p := RunBoth(ops[..n], max);
      StepSimulates(p.bounded, p.unbounded, p.evicted, ops[n], max);
      var before := Kept(ops[..n], max);
      assert (before + [ops[n]])[..|before|] == before;
      assert before + [] == before;
    }
  }

  /** The evicted prefix only grows. */
  lemma {:induction false} EvictedGrows<T>(ops: seq<Op<T>>, n: nat, max: int)
    requires n <= |ops|
    ensures RunBoth(ops[..n], max).evicted <= RunBoth(ops, max).evicted
  {
    if n == |ops| {
      assert ops[..n] == ops;
    } else {
      var m := |ops| - 1;
      EvictedGrows(ops[..m], n, max);
      assert ops[..m][..n] == ops[..n];
    }
  }

  /** With room for one item, a push leaves one. */
  lemma PushedHoldsOne<T>(h: History<T>, x: T, limit: Option<int>)
    requires limit.Some? ==> limit.value >= 1
    ensures |Pushed(h, x, limit).items| > 0
  {
    var added := SliceTo(h.items, h.index + 1) + [x];
    assert |added| > 0;
  }

  lemma StepEmptiesNeither<T>(b: History<T>, u: History<T>, op: Op<T>, max: int)
    requires max >= 1 && (|b.items| == 0 <==> |u.items| == 0)
    ensures |Step(b, op, Some(max)).0.items| == 0 <==> |Step(u, op, None).0.items| == 0
  {
    if op.PushOp? {
      PushedHoldsOne(b, op.x, Some(max));
      PushedHoldsOne(u, op.x, None);
    }
  }

  lemma {:induction false} RunEmptiesNeither<T>(ops: seq<Op<T>>, max: int)
    requires max >= 1
    ensures |RunBoth(ops, max).bounded.items| == 0 <==> |RunBoth(ops, max).unbounded.items| == 0
  {
    if ops != [] {
      var n := |ops| - 1;
      RunEmptiesNeither(ops[..n], max);
      var p := RunBoth(ops[..n], max);
      StepEmptiesNeither(p.bounded, p.unbounded, ops[n], max);
    }
  }

  /** With room for one state, the bounded and unbounded current states are the same on every run. */
  lemma RunCurrentAgrees<T>(ops: seq<Op<T>>, max: int)
    requires max >= 1
    ensures CurrentOf(RunAlone(ops, Some(max))) == CurrentOf(RunAlone(Kept(ops, max), None))
  {
    RunSimulates(ops, max);
    RunEmptiesNeither(ops, max);
    var p := RunBoth(ops, max);
    if p.bounded.items != [] {
      CurrentAgrees(p.bounded, p.unbounded, p.evicted);
    }
  }

  /** Without room for one, they differ after the first push. */
  lemma NoRoomDisagrees<T>(x: T, max: int)
    requires max < 1
    ensures CurrentOf(RunAlone([PushOp(x)], Some(max))) == None
    ensures CurrentOf(RunAlone(Kept([PushOp(x)], max), None)) == Some(x)
  {
    assert [PushOp(x)][..0] == [];
    RunSimulates([PushOp(x)], max);
  }

  lemma {:induction false} NothingSkipped<T>(ops: seq<Op<T>>, max: int)
    requires RunBoth(ops, max).evicted == 0
    ensures Kept(ops, max) == ops
  {
    if ops != [] {
      var n := |ops| - 1;
      NothingSkipped(ops[..n], max);
      assert Kept(ops, max) == ops[..n] + [ops[n]];
    }
  }

  /** Until the first eviction the bounded history is the unbounded one. */
  lemma NoEvictionNoDifference<T>(ops: seq<Op<T>>, max: int)
    requires RunBoth(ops, max).evicted == 0
    ensures RunAlone(ops, Some(max)) == RunAlone(ops, None)
  {
    NothingSkipped(ops, max);
    RunSimulates(ops, max);
    assert RunAlone(ops, None).items[0..] == RunAlone(ops, None).items;
  }

  /** A step count may be negative; the index then stays in range exactly under these bounds. */
  lemma StepCounts<T>(h: History<T>, steps: int)
    requires InRange(h)
    ensures InRange(Rewound(h, steps).0) <==> h.index - steps < |h.items|
    ensures InRange(Forwarded(h, steps).0) <==> h.index + steps >= 0 || steps == 0
  {
  }

  // ----- versions -----

  /** An item with the version it was given when it was pushed. */
  datatype Stamped<T> = Stamped(item: T, version: int)

  /** A push gives as version the number of items it keeps. */
  function VersionFor<T>(h: History<T>): nat {
    |SliceTo(h.items, h.index + 1)|
  }

  function StampedStep<T>(h: History<Stamped<T>>, op: Op<T>, limit: Option<int>): (History<Stamped<T>>, bool) {
    match op
    case PushOp(x) => Step(h, PushOp(Stamped(x, VersionFor(h))), limit)
    case RewindOp(n) => Rewound(h, n)
    case ForwardOp(n) => Forwarded(h, n)
  }

  function StampedRun<T>(ops: seq<Op<T>>, limit: Option<int>): History<Stamped<T>> {
    if ops == [] then History([], -1) else StampedStep(StampedRun(ops[..|ops| - 1], limit), ops[|ops| - 1], limit).0
  }

  /** h is g with versions. */
  ghost predicate Stamps<T>(h: History<Stamped<T>>, g: History<T>) {
    h.index == g.index && |h.items| == |g.items| && forall i :: 0 <= i < |g.items| ==> h.items[i].item == g.items[i]
  }

  /** A version is never behind its item's position, and ahead of it by no more than the evictions so far. */
  ghost predicate VersionsWithin<T>(items: seq<Stamped<T>>, evicted: nat) {
    forall i :: 0 <= i < |items| ==> i <= items[i].version <= i + evicted
  }

  lemma StampedPushKeeps<T>(h: History<Stamped<T>>, g: History<T>, x: T, max: int, evicted: nat)
    requires InRange(g) && Stamps(h, g) && VersionsWithin(h.items, evicted)
    ensures var next := StampedStep(h, PushOp(x), Some(max)).0;
            Stamps(next, Pushed(g, x, Some(max))) && VersionsWithin(next.items, evicted + EvictedBy(g, PushOp(x), max))
  {
    var k := g.index + 1;
    var kept, all := h.items[..k], h.items[..k] + [Stamped(x, k)];
    assert SliceTo(h.items, k) == kept && SliceTo(g.items, k) == g.items[..k];
    assert VersionsWithin(all, evicted);
    assert StampedStep(h, PushOp(x), Some(max)).0.items == if |all| > max then all[1..] else all;
  }

  lemma StampedStepKeeps<T>(h: History<Stamped<T>>, g: History<T>, op: Op<T>, max: int, evicted: nat)
    requires InRange(g) && Stamps(h, g) && VersionsWithin(h.items, evicted)
    ensures var next := StampedStep(h, op, Some(max)).0;
            Stamps(next, Step(g, op, Some(max)).0) && VersionsWithin(next.items, evicted + EvictedBy(g, op, max))
  {
    if op.PushOp? {
      StampedPushKeeps(h, g, op.x, max, evicted);
    }
  }

  /** On every run versions stay that close to positions; until the first eviction they are the positions. */
  lemma {:induction false} RunVersions<T>(ops: seq<Op<T>>, max: int)
    ensures var h := StampedRun(ops, Some(max));
            Stamps(h, RunAlone(ops, Some(max))) && VersionsWithin(h.items, RunBoth(ops, max).evicted)
  {
    if ops != [] {
      var n := |ops| - 1;
      RunVersions(ops[..n], max);
      RunSimulates(ops[..n], max);
      var p := RunBoth(ops[..n], max);
      StampedStepKeeps(StampedRun(ops[..n], Some(max)), p.bounded, ops[n], max, p.evicted);
    }
  }

  // ----- implementation -----

  datatype Validity = Valid | Inconsistent | Stale | Unknown

  type Data = map<string, int>

  class StateSnapshot {
    const data: Data
    var version: int
    var validity: Validity

    constructor (data: Data, version: int, validity: Validity)
      ensures this.data == data && this.version == version && this.validity == validity
    {
      this.data, this.version, this.validity := data, version, validity;
    }
  }

  class StateTrajectory {
    var history: seq<StateSnapshot>
    var currentIndex: int
    const maxHistory: int

    constructor (maxHistory: int := 1000)
      ensures this.maxHistory == maxHistory && Value() == History([], -1)
    {
      history, currentIndex, this.maxHistory := [], -1, maxHistory;
    }

    ghost function Value(): History<StateSnapshot>
      reads this
    {
      History(history, currentIndex)
    }

    ghost function Versioned(): History<Stamped<StateSnapshot>>
      reads this, history
    {
      History(seq(|history|, i requires 0 <= i < |history| reads this, history
          => Stamped(history[i], history[i].version)),
              currentIndex)
    }

    /** Every snapshot's version is its position. */
    ghost predicate VersionsArePositions()
      reads this, history
    {
      forall i :: 0 <= i < |history| ==> history[i].version == i
    }

    /** A snapshot that is pushed a second time changes its version at its first place too. */
    method Push(snapshot: StateSnapshot)
      modifies `history, `currentIndex, snapshot`version
      ensures Value() == Pushed(old(Value()), snapshot, Some(maxHistory))
      ensures InRange(old(Value())) && maxHistory >= 1 ==>
                && InRange(Value()) && currentIndex == |history| - 1 && history[currentIndex] == snapshot
                && snapshot.version == old(currentIndex) + 1
                && history[..currentIndex]
                    == if old(currentIndex) + 1 < maxHistory then old(history)[..old(currentIndex) + 1]
                       else old(history)[1..old(currentIndex) + 1]
      ensures snapshot.version == |SliceTo(old(history), old(currentIndex) + 1)|
      ensures snapshot !in old(history) ==>
                Versioned() == StampedStep(old(Versioned()), PushOp(snapshot), Some(maxHistory)).0
      ensures old(VersionsArePositions()) && snapshot !in old(history) && snapshot.version < maxHistory
              ==> VersionsArePositions()
    {
      if InRange(Value()) && maxHistory >= 1 {
        PushMeaning(Value(), snapshot, maxHistory);
      }
      Append(snapshot);
      if |history| > maxHistory {
        ghost var all := Versioned().items;
        history := history[1..];
        currentIndex := currentIndex - 1;
        assert Versioned().items == all[1..];
      }
    }

    /** The first half of push: cut off the future and append. */
    method Append(snapshot: StateSnapshot)
      modifies `history, `currentIndex, snapshot`version
      ensures Value() == Pushed(old(Value()), snapshot, None)
      ensures snapshot.version == |SliceTo(old(history), old(currentIndex) + 1)|
      ensures snapshot !in old(history) ==>
                Versioned() == StampedStep(old(Versioned()), PushOp(snapshot), None).0
    {
      CutFuture();
      ghost var kept := Versioned().items;
      snapshot.version := |history|;
      history := history + [snapshot];
      assert snapshot !in old(history) ==> Versioned().items == kept + [Stamped(snapshot, |kept|)];
      currentIndex := currentIndex + 1;
    }

    /** history[:currentIndex + 1] */
    method CutFuture()
      modifies `history
      ensures history == SliceTo(old(history), currentIndex + 1)
      ensures Versioned().items == SliceTo(old(Versioned()).items, currentIndex + 1)
      ensures forall s :: s in history ==> s in old(history)
    {
      history := SliceTo(history, currentIndex + 1);
    }

    method Current() returns (snapshot: Option<StateSnapshot>)
      ensures snapshot == CurrentOf(Value())
      ensures snapshot == if 0 <= currentIndex < |history| then Some(history[currentIndex]) else None
    {
      if currentIndex >= 0 && currentIndex < |history| {
        return Some(history[currentIndex]);
      }
      return None;
    }

    method Rewind(steps: int := 1) returns (ok: bool)
      modifies `currentIndex
      ensures (Value(), ok) == Rewound(old(Value()), steps)
      ensures currentIndex == old(currentIndex) - if ok then steps else 0
    {
      var target := currentIndex - steps;
      if target >= 0 {
        currentIndex := target;
        return true;
      }
      return false;
    }

    method Forward(steps: int := 1) returns (ok: bool)
      modifies `currentIndex
      ensures (Value(), ok) == Forwarded(old(Value()), steps)
      ensures currentIndex == old(currentIndex) + if ok then steps else 0
    {
      var target := currentIndex + steps;
      if target < |history| {
        currentIndex := target;
        return true;
      }
      return false;
    }
  }

  // ----- validated updates -----

  /** What calling a registered check does. */
  datatype CheckResult = Holds | Fails | Raises

  type Check = Data -> CheckResult

  /** The first check that does not hold, counted from i, decides. */
  function Verdict(checks: seq<Check>, data: Data, i: nat): Validity
    decreases |checks| - i
  {
    if i >= |checks| then Valid else
      match checks[i](data)
      case Holds => Verdict(checks, data, i + 1)
      case Fails => Inconsistent
      case Raises => Unknown
  }

  ghost predicate FirstIs(checks: seq<Check>, data: Data, result: CheckResult) {
    exists i :: 0 <= i < |checks| && checks[i](data) == result && forall j :: 0 <= j < i ==> checks[j](data) == Holds
  }

  lemma {:induction false} VerdictMeaning(checks: seq<Check>, data: Data, i: nat)
    requires forall j :: 0 <= j < i && j < |checks| ==> checks[j](data) == Holds
    ensures Verdict(checks, data, i) == Valid <==> forall j :: 0 <= j < |checks| ==> checks[j](data) == Holds
    ensures Verdict(checks, data, i) == Inconsistent <==> FirstIs(checks, data, Fails)
    ensures Verdict(checks, data, i) == Unknown <==> FirstIs(checks, data, Raises)
    decreases |checks| - i
  {
    if i < |checks| && checks[i](data) == Holds {
      VerdictMeaning(checks, data, i + 1);
    }
  }

  class StateValidator {
    var invariants: seq<Check>

    constructor ()
      ensures invariants == []
    {
      invariants := [];
    }

    method RegisterInvariant(check: Check)
      modifies this
      ensures invariants == old(invariants) + [check]
    {
      invariants := invariants + [check];
    }

    method Validate(data: Data) returns (validity: Validity)
      ensures validity == Verdict(invariants, data, 0)
    {
      for i := 0 to |invariants|
        invariant Verdict(invariants, data, i) == Verdict(invariants, data, 0)
      {
        match invariants[i](data)
        case Holds =>
        case Fails => return Inconsistent;
        case Raises => return Unknown;
      }
      return Valid;
    }
  }

  class SIMState {
    const trajectory: StateTrajectory
    const validator: StateValidator
    var initialized: bool

    constructor ()
      ensures fresh(trajectory) && fresh(validator) && !initialized
      ensures trajectory.Value() == History([], -1) && trajectory.maxHistory == 1000 && validator.invariants == []
    {
      trajectory := new StateTrajectory();
      validator := new StateValidator();
      initialized := false;
    }

    /** The initial state is not validated. */
    method Initialize(state: Data)
      modifies this, trajectory
      ensures initialized
      ensures exists s: StateSnapshot :: fresh(s) && s.data == state && s.validity == Valid
                && trajectory.Value() == Pushed(old(trajectory.Value()), s, Some(trajectory.maxHistory))
    {
      var snapshot := new StateSnapshot(state, 0, Valid);
      trajectory.Push(snapshot);
      initialized := true;
    }

    /**
     * Succeeds exactly when there is a current state and every check holds of the
     * merged data, which it then pushes.
     */
    method Update(delta: Data) returns (ok: bool)
      modifies trajectory
      ensures var before := old(trajectory.Value());
              var merged := if CurrentOf(before).Some? then CurrentOf(before).value.data + delta else delta;
              && (ok <==> CurrentOf(before).Some? && Verdict(validator.invariants, merged, 0) == Valid)
              && (!ok ==> trajectory.Value() == before)
              && (ok ==> exists s: StateSnapshot :: fresh(s) && s.data == merged && s.validity == Valid
                           && trajectory.Value() == Pushed(before, s, Some(trajectory.maxHistory)))
              && (ok && InRange(before) && trajectory.maxHistory >= 1 ==>
                    CurrentOf(trajectory.Value()).Some? && CurrentOf(trajectory.Value()).value.data == merged)
    {
      var current := trajectory.Current();
      if current == None { return false; }
      var merged := current.value.data + delta;
      var snapshot := new StateSnapshot(merged, current.value.version + 1, Unknown);
      snapshot.validity := validator.Validate(merged);
      if snapshot.validity != Valid { return false; }
      trajectory.Push(snapshot);
      return true;
    }
  }
}
