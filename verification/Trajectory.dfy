/**
 * Reasoning steps, their tree and the backtracking path through them
 * (cognitive/sim_trajectory.py).
 */
module Trajectory {
  import opened Wrappers
  import opened Sequences
  import opened ReasoningForest
  import opened ReasoningSubtrees

  datatype StepType = Observation | Inference | Decision | Action | Reflection

  datatype StepStatus = Pending | Executing | Success | Failed | Backtracked

  /** Input and output payloads. */
  type Data = map<string, string>

  // ----- step ids -----

  function TypeName(t: StepType): string {
    match t
    case Observation => "observation"
    case Inference => "inference"
    case Decision => "decision"
    case Action => "action"
    case Reflection => "reflection"
  }

  function Decimal(n: nat): string {
    if n < 10 then ["0123456789"[n]] else Decimal(n / 10) + ["0123456789"[n % 10]]
  }

  function StepId(t: StepType, position: nat): string {
    TypeName(t) + ['_'] + Decimal(position)
  }

  function DigitValue(c: char): nat {
    if '0' <= c <= '9' then (c - '0') as int else 0
  }

  function DecimalValue(s: string): nat {
    if s == [] then 0 else DecimalValue(s[..|s| - 1]) * 10 + DigitValue(s[|s| - 1])
  }

  lemma {:induction false} DecimalRoundTrip(n: nat)
    ensures DecimalValue(Decimal(n)) == n
  {
    var d := Decimal(n);
    var digit := "0123456789"[n % 10];
    assert DigitValue(digit) == n % 10;
    if n < 10 {
      assert d[..0] == [];
    } else {
      DecimalRoundTrip(n / 10);
      assert d[..|d| - 1] == Decimal(n / 10);
    }
  }

  lemma NoUnderscore(t: StepType)
    ensures '_' !in TypeName(t)
  {
  }

  lemma FirstUnderscore(a: string, d: string, b: string, e: string)
    requires '_' !in a && '_' !in b
    requires a + ['_'] + d == b + ['_'] + e
    ensures d == e
  {
    var whole := a + ['_'] + d;
    assert whole[|a|] == '_' && whole[|b|] == '_';
    assert |a| == |b|;
    assert whole[|a| + 1..] == d && whole[|b| + 1..] == e;
  }

  /** The position can be read off a generated id, whatever the step types. */
  lemma StepIdPosition(t: StepType, i: nat, u: StepType, j: nat)
    requires StepId(t, i) == StepId(u, j)
    ensures i == j
  {
    NoUnderscore(t);
    NoUnderscore(u);
    FirstUnderscore(TypeName(t), Decimal(i), TypeName(u), Decimal(j));
    DecimalRoundTrip(i);
    DecimalRoundTrip(j);
  }

  // ----- the backtracking path as a state machine -----

  /** statuses: every step in the tree; sequence: the live steps, oldest first. */
  datatype Trace = Trace(statuses: map<string, StepStatus>, sequence: seq<string>, current: Option<string>)

  const EMPTY_TRACE := Trace(map[], [], None)

  function AfterBegin(s: Trace, id: string): Trace {
    Trace(s.statuses[id := Executing], s.sequence + [id], Some(id))
  }

  function AfterComplete(s: Trace, id: string, failed: bool): Trace {
    if id in s.statuses then s.(statuses := s.statuses[id := if failed then Failed else Success]) else s
  }

  function Marked(statuses: map<string, StepStatus>, ids: seq<string>): map<string, StepStatus> {
    map x | x in statuses :: if x in ids then Backtracked else statuses[x]
  }

  function LastOf(s: seq<string>): Option<string> {
    if s == [] then None else Some(s[|s| - 1])
  }

  /** Refused when there are fewer live steps than that; a negative count undoes nothing. */
  function AfterBacktrack(s: Trace, steps: int): Trace {
    if steps > |s.sequence| then s else
      var keep := |s.sequence| - if steps < 0 then 0 else steps;
      Trace(Marked(s.statuses, s.sequence[keep..]), s.sequence[..keep], LastOf(s.sequence[..keep]))
  }

  /** The last steps that many leave the live path and are marked; nothing else changes but the current step. */
  lemma BacktrackMeaning(s: Trace, steps: nat)
    requires steps <= |s.sequence|
    ensures var r, n := AfterBacktrack(s, steps), |s.sequence| - steps;
            && r.sequence == s.sequence[..n]
            && r.current == (if n == 0 then None else Some(s.sequence[n - 1]))
            && r.statuses.Keys == s.statuses.Keys
            && (forall i :: n <= i < |s.sequence| && s.sequence[i] in s.statuses ==>
                  r.statuses[s.sequence[i]] == Backtracked)
            && (forall id :: id in s.statuses && (forall i :: n <= i < |s.sequence| ==> s.sequence[i] != id) ==>
                  r.statuses[id] == s.statuses[id])
  {
    var n := |s.sequence| - steps;
    forall i | n <= i < |s.sequence| ensures s.sequence[i] in s.sequence[n..] {
      assert s.sequence[n..][i - n] == s.sequence[i];
    }
  }

  /** One round of the backtracking loop, before the current step is updated. */
  function Pop(s: Trace): Trace
    requires s.sequence != []
  {
    var last := |s.sequence| - 1;
    var id := s.sequence[last];
    Trace(if id in s.statuses then s.statuses[id := Backtracked] else s.statuses, s.sequence[..last], s.current)
  }

  lemma DropAppend(s: seq<string>, x: string, n: nat)
    requires n <= |s|
    ensures (s + [x])[n..] == s[n..] + [x] && (s + [x])[..n] == s[..n]
  {
  }

  lemma MarkLast(statuses: map<string, StepStatus>, ids: seq<string>, id: string)
    ensures Marked(statuses, ids + [id])
         == Marked(if id in statuses then statuses[id := Backtracked] else statuses, ids)
  {
  }

  function Pops(s: Trace, n: nat): Trace
    requires n <= |s.sequence|
    decreases n
  {
    if n == 0 then s else Pops(Pop(s), n - 1)
  }

  /** Popping once and backtracking one less is backtracking. */
  lemma BacktrackAfterPop(s: Trace, n: nat)
    requires 0 < n <= |s.sequence|
    ensures AfterBacktrack(Pop(s), n - 1) == AfterBacktrack(s, n)
  {
    var p, keep := Pop(s).sequence, |s.sequence| - n;
    var id := s.sequence[|s.sequence| - 1];
    assert s.sequence == p + [id];
    DropAppend(p, id, keep);
    MarkLast(s.statuses, p[keep..], id);
  }

  /** The loop marks and drops the steps one by one; the effect is that of marking them together. */
  lemma {:induction false} PopsBacktracks(s: Trace, n: nat)
    requires n <= |s.sequence|
    ensures Pops(s, n).(current := LastOf(Pops(s, n).sequence)) == AfterBacktrack(s, n)
    decreases n
  {
    if n == 0 {
      assert s.sequence[..|s.sequence|] == s.sequence;
      assert Marked(s.statuses, []) == s.statuses;
    } else {
      PopsBacktracks(Pop(s), n - 1);
      BacktrackAfterPop(s, n);
    }
  }

  datatype Op = RecordOp(t: StepType) | CompleteOp(id: string, failed: bool) | BacktrackOp(steps: int)

  function Step(s: Trace, op: Op): Trace {
    match op
    case RecordOp(t) => AfterBegin(s, StepId(t, |s.sequence|))
    case CompleteOp(id, failed) => AfterComplete(s, id, failed)
    case BacktrackOp(steps) => AfterBacktrack(s, steps)
  }

  function Run(ops: seq<Op>): Trace {
    if ops == [] then EMPTY_TRACE else Step(Run(ops[..|ops| - 1]), ops[|ops| - 1])
  }

  ghost predicate GeneratedAt(id: string, i: nat) {
    exists t :: id == StepId(t, i)
  }

  /** The i-th live id was generated at position i. */
  ghost predicate GeneratedIds(sequence: seq<string>) {
    forall i :: 0 <= i < |sequence| ==> GeneratedAt(sequence[i], i)
  }

  /** What every run keeps: the live ids are distinct, resolve to steps not backtracked, and end in the current one. */
  ghost predicate Coherent(s: Trace) {
    && NoDuplicates(s.sequence)
    && (forall id :: id in s.sequence ==> id in s.statuses && s.statuses[id] != Backtracked)
    && s.current == LastOf(s.sequence)
  }

  lemma GeneratedAreDistinct(sequence: seq<string>)
    requires GeneratedIds(sequence)
    ensures NoDuplicates(sequence)
  {
    forall i, j | 0 <= i < j < |sequence| ensures sequence[i] != sequence[j] {
      assert GeneratedAt(sequence[i], i) && GeneratedAt(sequence[j], j);
      var t :| sequence[i] == StepId(t, i);
      var u :| sequence[j] == StepId(u, j);
      if sequence[i] == sequence[j] {
        StepIdPosition(t, i, u, j);
      }
    }
  }

  lemma StepGenerates(s: Trace, op: Op)
    requires GeneratedIds(s.sequence)
    ensures GeneratedIds(Step(s, op).sequence)
  {
    assert forall i :: 0 <= i < |s.sequence| ==> GeneratedAt(s.sequence[i], i);
    if op.RecordOp? {
      assert GeneratedAt(StepId(op.t, |s.sequence|), |s.sequence|);
    }
  }

  lemma StepKeeps(s: Trace, op: Op)
    requires Coherent(s) && GeneratedIds(s.sequence)
    ensures Coherent(Step(s, op)) && GeneratedIds(Step(s, op).sequence)
  {
    var s' := Step(s, op);
    StepGenerates(s, op);
    GeneratedAreDistinct(s'.sequence);
    if op.BacktrackOp? && op.steps <= |s.sequence| {
      var keep := |s'.sequence|;
      forall id | id in s'.sequence ensures id !in s.sequence[keep..] {
        var i :| 0 <= i < keep && s'.sequence[i] == id;
        assert s.sequence[i] == id;
      }
    }
  }

  /** Every run of record_step, complete_step and backtrack, on any ids and counts, keeps the live path coherent. */
  lemma {:induction false} RunIsCoherent(ops: seq<Op>)
    ensures Coherent(Run(ops)) && GeneratedIds(Run(ops).sequence)
  {
    if ops != [] {
      RunIsCoherent(ops[..|ops| - 1]);
      StepKeeps(Run(ops[..|ops| - 1]), ops[|ops| - 1]);
    }
  }

  function RecordAll(s: Trace, types: seq<StepType>): Trace {
    if types == [] then s else Step(RecordAll(s, types[..|types| - 1]), RecordOp(types[|types| - 1]))
  }

  lemma {:induction false} RecordAllExtends(s: Trace, types: seq<StepType>)
    requires Coherent(s) && GeneratedIds(s.sequence)
    ensures var r := RecordAll(s, types);
            && Coherent(r) && GeneratedIds(r.sequence)
            && |r.sequence| == |s.sequence| + |types| && r.sequence[..|s.sequence|] == s.sequence
            && forall id :: id in s.sequence ==> id in r.statuses && r.statuses[id] == s.statuses[id]
  {
    if types == [] {
      assert s.sequence[..|s.sequence|] == s.sequence;
    } else {
      var n := |types| - 1;
      RecordAllExtends(s, types[..n]);
      var before := RecordAll(s, types[..n]);
      StepKeeps(before, RecordOp(types[n]));
      var r := RecordAll(s, types);
      assert r.sequence[..|s.sequence|] == before.sequence[..|s.sequence|];
      forall id | id in s.sequence ensures id != r.sequence[|before.sequence|] {
        var i :| 0 <= i < |s.sequence| && s.sequence[i] == id;
        assert r.sequence[i] == r.sequence[..|s.sequence|][i] == id;
      }
    }
  }

  /** Recording k steps and backtracking k restores the live path, and every step it held keeps its status. */
  lemma BacktrackUndoesRecords(s: Trace, types: seq<StepType>)
    requires Coherent(s) && GeneratedIds(s.sequence)
    ensures var r := AfterBacktrack(RecordAll(s, types), |types|);
            && r.sequence == s.sequence && r.current == s.current
            && forall id :: id in s.sequence ==> id in r.statuses && r.statuses[id] == s.statuses[id]
  {
    RecordAllExtends(s, types);
    var r, keep := RecordAll(s, types), |s.sequence|;
    forall id | id in s.sequence ensures id !in r.sequence[keep..] {
      var i :| 0 <= i < keep && s.sequence[i] == id;
      assert r.sequence[i] == r.sequence[..keep][i] == id;
    }
  }

  // ----- implementation -----

  class ReasoningStep {
    const id: string
    const stepType: StepType
    const input: Data
    const parentId: Option<string>
    var status: StepStatus
    var output: Option<Data>
    var error: Option<string>
    var children: seq<string>

    constructor (id: string, stepType: StepType, status: StepStatus, input: Data, parentId: Option<string>)
      ensures this.id == id && this.stepType == stepType && this.input == input && this.parentId == parentId
      ensures this.status == status && output == None && error == None && children == []
    {
      this.id, this.stepType, this.status, this.input, this.parentId := id, stepType, status, input, parentId;
      output, error, children := None, None, [];
    }
  }

  function Ids(path: seq<ReasoningStep>): seq<string> {
    seq(|path|, i requires 0 <= i < |path| => path[i].id)
  }

  lemma IdsConcat(path: seq<ReasoningStep>, more: seq<ReasoningStep>)
    ensures Ids(path + more) == Ids(path) + Ids(more)
  {
  }

  class ExecutionTree {
    var steps: map<string, ReasoningStep>
    var rootIds: seq<string>
    ghost var repr: set<ReasoningStep>

    constructor ()
      ensures steps == map[] && repr == {} && Shows(EMPTY_FOREST, map[])
    {
      steps, rootIds, repr := map[], [], {};
    }

    /** f and m are this tree and the statuses of its steps as values. */
    ghost predicate Shows(f: Forest, m: map<string, StepStatus>)
      reads this, repr
    {
      && f.roots == rootIds
      && f.nodes.Keys == m.Keys == steps.Keys
      && forall k :: k in steps ==>
           var step := steps[k];
           && step in repr && step.id == k
           && f.nodes[k] == Node(step.parentId, step.children) && m[k] == step.status
    }

    method AddStep(step: ReasoningStep, ghost f: Forest, ghost m: map<string, StepStatus>)
      requires Shows(f, m)
      modifies this, repr, step
      ensures steps == old(steps)[step.id := step] && repr == old(repr) + {step} && step.status == old(step.status)
      ensures rootIds == if step.parentId == None then old(rootIds) + [step.id] else old(rootIds)
      ensures Shows(AddNode(f, step.id, Node(step.parentId, old(step.children))), m[step.id := old(step.status)])
    {
      ghost var g := Forest(f.nodes[step.id := Node(step.parentId, step.children)], f.roots);
      steps, repr := steps[step.id := step], repr + {step};
      assert Shows(g, m[step.id := step.status]);
      if step.parentId == None {
        rootIds := rootIds + [step.id];
      } else if step.parentId.value in steps {
        AddChild(steps[step.parentId.value], step.id, g, m[step.id := step.status]);
      }
    }

    method AddChild(parent: ReasoningStep, id: string, ghost f: Forest, ghost m: map<string, StepStatus>)
      requires Shows(f, m) && parent.id in steps && steps[parent.id] == parent
      modifies parent`children
      ensures Shows(Forest(f.nodes[parent.id := f.nodes[parent.id].(children := f.nodes[parent.id].children + [id])],
          f.roots), m)
    {
      parent.children := parent.children + [id];
    }

    method SetStatus(step: ReasoningStep, status: StepStatus, ghost f: Forest, ghost m: map<string, StepStatus>)
      requires Shows(f, m) && step.id in steps && steps[step.id] == step
      modifies step`status
      ensures Shows(f, m[step.id := status]) && step.status == status
    {
      step.status := status;
    }

    /** Needs no more than that the walk ends; a missing id gives the empty path. */
    method GetPathToStep(stepId: string, ghost f: Forest, ghost m: map<string, StepStatus>)
      returns (path: seq<ReasoningStep>)
      requires Shows(f, m) && (stepId in steps ==> PathStops(f, stepId))
      ensures stepId !in steps ==> path == []
      ensures stepId in steps ==> Ids(path) == Path(f, stepId)
      ensures forall s :: s in path ==> s.id in steps && steps[s.id] == s
    {
      if stepId !in steps { return []; }
      var current := steps[stepId];
      path := [current];
      ghost var whole, ids := Path(f, stepId), [stepId];
      PathEnds(f, stepId);
      while current.parentId.Some? && current.parentId.value != ""
        invariant current.id in steps && steps[current.id] == current && PathStops(f, current.id)
        invariant forall s :: s in path ==> s.id in steps && steps[s.id] == s
        invariant Ids(path) == ids && whole == Above(f, current.id) + ids
        decreases |Path(f, current.id)|
      {
        ClimbOnce(f, current.id, whole, ids);
        if current.parentId.value !in steps { break; }
        var parent := steps[current.parentId.value];
        IdsConcat([parent], path);
        path, ids := [parent] + path, [parent.id] + ids;
        current := parent;
      }
      ClimbOnce(f, current.id, whole, ids);
    }

    /** Needs no more than that the walk ends; a missing id gives nothing. */
    method GetSubtree(stepId: string, ghost f: Forest, ghost m: map<string, StepStatus>)
      returns (result: seq<ReasoningStep>)
      requires Shows(f, m) && (stepId in steps ==> SubtreeStops(f, stepId))
      ensures stepId !in steps ==> result == []
      ensures stepId in steps ==> Ids(result) == Subtree(f, stepId)
      ensures forall s :: s in result ==> s.id in steps && steps[s.id] == s
    {
      if stepId !in steps { return []; }
      ghost var n: nat :| |Seen(f, stepId, n)| == n;
      SeenIsListing(f, stepId, n);
      SeenGrows(f, stepId, 0, n);
      ghost var i, seen := 1, Seen(f, stepId, 1);
      result := [steps[stepId]];
      PresentNext(f, seen, 0);
      var queue := steps[stepId].children;
      while queue != []
        invariant i <= |seen| && i <= n && queue == seen[i..] && seen == Seen(f, stepId, i)
        invariant Ids(result) == Present(f, seen[..i])
        invariant forall s :: s in result ==> s.id in steps && steps[s.id] == s
        decreases n - i
      {
        VisitNext(f, stepId, n, i);
        var childId := queue[0];
        queue := queue[1..];
        if childId in steps {
          var child := steps[childId];
          IdsConcat(result, [child]);
          result := result + [child];
          queue := queue + child.children;
        }
        seen, i := Seen(f, stepId, i + 1), i + 1;
      }
      SeenIsListing(f, stepId, i);
      assert seen[..i] == seen;
    }
  }

  class ReasoningTrajectory {
    const tree: ExecutionTree
    var currentStepId: Option<string>
    var stepSequence: seq<string>

    constructor ()
      ensures fresh(tree) && Shows(EMPTY_FOREST, EMPTY_TRACE)
    {
      tree := new ExecutionTree();
      currentStepId, stepSequence := None, [];
    }

    /** f is the tree, and t the live path with every step's status, as values. */
    ghost predicate Shows(f: Forest, t: Trace)
      reads this, tree, tree.repr
    {
      t.sequence == stepSequence && t.current == currentStepId && tree.Shows(f, t.statuses)
    }

    method BeginStep(stepId: string, stepType: StepType, input: Data, parentId: Option<string>,
                     ghost f: Forest, ghost t: Trace)
      returns (step: ReasoningStep)
      requires Shows(f, t)
      modifies this, tree, tree.repr
      ensures fresh(step) && tree.repr == old(tree.repr) + {step} && tree.steps == old(tree.steps)[stepId := step]
      ensures step.id == stepId && step.stepType == stepType && step.input == input && step.parentId == parentId
      ensures step.status == Executing && stepSequence == old(stepSequence) + [stepId] && currentStepId == Some(stepId)
      ensures Shows(AddNode(f, stepId, Node(parentId, [])), AfterBegin(t, stepId))
    {
      step := new ReasoningStep(stepId, stepType, Executing, input, parentId);
      tree.AddStep(step, f, t.statuses);
      stepSequence := stepSequence + [stepId];
      currentStepId := Some(stepId);
    }

    /** An empty error string is falsy, so it completes the step successfully. */
    method CompleteStep(stepId: string, output: Option<Data>, error: Option<string>, ghost f: Forest, ghost t: Trace)
      requires Shows(f, t)
      modifies if stepId in tree.steps then {tree.steps[stepId]} else {}
      ensures Shows(f, AfterComplete(t, stepId, error.Some? && error.value != ""))
      ensures stepId in tree.steps ==> tree.steps[stepId].output == output && tree.steps[stepId].error == error
      ensures stepId in tree.steps ==>
                (tree.steps[stepId].status == if error.Some? && error.value != "" then Failed else Success)
    {
      if stepId !in tree.steps { return; }
      var step := tree.steps[stepId];
      tree.SetStatus(step, if error.Some? && error.value != "" then Failed else Success, f, t.statuses);
      step.output := output;
      step.error := error;
    }

    method Backtrack(steps: int, ghost f: Forest, ghost t: Trace) returns (ok: bool)
      requires Shows(f, t)
      modifies `stepSequence, `currentStepId, tree.repr`status
      ensures ok == (steps <= |t.sequence|)
      ensures Shows(f, AfterBacktrack(t, steps))
    {
      if steps > |stepSequence| { return false; }
      var i := 0;
      ghost var n := if steps < 0 then 0 else steps;
      ghost var s, goal := t, Pops(t, n);
      while i < steps
        invariant 0 <= i <= n && |s.sequence| == |t.sequence| - i && Shows(f, s)
        invariant Pops(s, n - i) == goal
      {
        BacktrackOne(f, s);
        s := Pop(s);
        i := i + 1;
      }
      currentStepId := LastOf(stepSequence);
      PopsBacktracks(t, n);
      return true;
    }

    /** The body of the backtracking loop. */
    method BacktrackOne(ghost f: Forest, ghost t: Trace)
      requires Shows(f, t) && stepSequence != []
      modifies `stepSequence, tree.repr`status
      ensures Shows(f, Pop(t))
    {
      var last := |stepSequence| - 1;
      var stepId := stepSequence[last];
      if stepId in tree.steps {
        var step := tree.steps[stepId];
        tree.SetStatus(step, Backtracked, f, t.statuses);
      }
      stepSequence := stepSequence[..last];
    }
  }

  class SIMTrajectory {
    const trajectory: ReasoningTrajectory
    const maxDepth: nat := 100
    var depthExceeded: bool

    constructor ()
      ensures fresh(trajectory) && fresh(trajectory.tree) && !depthExceeded
      ensures trajectory.Shows(EMPTY_FOREST, Run([]))
    {
      trajectory := new ReasoningTrajectory();
      depthExceeded := false;
    }

    /** ops is the history of calls so far; the new step is a root, as record_step never names a parent. */
    method RecordStep(stepType: StepType, input: Data, ghost f: Forest, ghost ops: seq<Op>) returns (stepId: string)
      requires trajectory.Shows(f, Run(ops))
      modifies this, trajectory, trajectory.tree, trajectory.tree.repr
      ensures trajectory.Shows(AddNode(f, stepId, Node(None, [])), Run(ops + [RecordOp(stepType)]))
      ensures stepId == StepId(stepType, |old(trajectory.stepSequence)|)
      ensures trajectory.stepSequence == old(trajectory.stepSequence) + [stepId]
      ensures trajectory.currentStepId == Some(stepId) && trajectory.tree.steps[stepId].status == Executing
      ensures depthExceeded == (old(depthExceeded) || |trajectory.stepSequence| > maxDepth)
    {
      stepId := StepId(stepType, |trajectory.stepSequence|);
      assert (ops + [RecordOp(stepType)])[..|ops|] == ops;
      var step := trajectory.BeginStep(stepId, stepType, input, None, f, Run(ops));
      if |trajectory.stepSequence| > maxDepth {
        depthExceeded := true;
      }
    }

    /** Every lookup succeeds: the live ids all resolve, whatever was recorded and backtracked before. */
    method GetReasoningPath(ghost f: Forest, ghost ops: seq<Op>) returns (path: seq<(string, StepType)>)
      requires trajectory.Shows(f, Run(ops))
      ensures |path| == |trajectory.stepSequence|
      ensures forall i :: 0 <= i < |path| ==>
                && path[i].0 == trajectory.stepSequence[i] && path[i].0 in trajectory.tree.steps
                && path[i].1 == trajectory.tree.steps[path[i].0].stepType
                && trajectory.tree.steps[path[i].0].status != Backtracked
    {
      RunIsCoherent(ops);
      var ids := trajectory.stepSequence;
      assert forall id :: id in ids ==> id in trajectory.tree.steps && trajectory.tree.steps[id].status != Backtracked;
      path := [];
      for i := 0 to |ids|
        invariant |path| == i
        invariant forall j :: 0 <= j < i ==> path[j] == (ids[j], trajectory.tree.steps[ids[j]].stepType)
      {
        path := path + [(ids[i], trajectory.tree.steps[ids[i]].stepType)];
      }
    }
  }
}
