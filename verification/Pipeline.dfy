/**
 * The staged execution pipeline (tec/pipeline.py). Handlers are an oracle:
 * respond(k) is what the k-th handler call of a run does.
 */
module Pipelines {
  datatype Stage = Plan | Validate | Authorize | Execute | Verify | Rollback

  datatype Status = Pending | Executing | Success | Failed | RolledBack

  /** Stages in the order in which execute_plan visits them. */
  const STAGES: seq<Stage> := [Plan, Validate, Authorize, Execute, Verify]

  datatype Response = Truthy | Falsy | Raises

  /** A handler call: the index-th handler registered for stage. */
  datatype Call = Call(stage: Stage, index: nat)

  type Oracle = nat -> Response

  type Handlers = map<Stage, nat>

  // ----- specification -----

  datatype ExecutionPlan = ExecutionPlan(id: string, goal: int)

  datatype Record = Record(plan: ExecutionPlan, status: Status, stage: Stage)

  /** Between calls no execution is left executing or merely failed. */
  predicate AtRest(e: Record) {
    match e.status
    case Pending => e.stage == Plan
    case Success => e.stage == Verify
    case RolledBack => e.stage in STAGES
    case _ => false
  }

  /** All handlers of one stage, in registration order. */
  function CallsOf(stage: Stage, count: nat): seq<Call> {
    seq(count, i requires 0 <= i < count => Call(stage, i))
  }

  function CountOf(h: Handlers, stage: Stage): nat {
    if stage in h then h[stage] else 0
  }

  /** All handlers of the listed stages, flattened. */
  function AllCalls(h: Handlers, stages: seq<Stage>): seq<Call> {
    if stages == [] then [] else CallsOf(stages[0], CountOf(h, stages[0])) + AllCalls(h, stages[1..])
  }

  /** How many of the next n calls are made: up to and including the first that is not truthy. */
  function Made(respond: Oracle, k: nat, n: nat): (m: nat)
    ensures m <= n
    decreases n
  {
    if n == 0 then 0 else if respond(k) != Truthy then 1 else 1 + Made(respond, k + 1, n - 1)
  }

  ghost predicate AllTruthy(respond: Oracle, k: nat, n: nat) {
    forall i :: k <= i < k + n ==> respond(i) == Truthy
  }

  /**
   * The calls made are an initial stretch: all truthy but possibly the last, and all
   * n of them if that one is truthy too.
   */
  lemma {:induction false} MadeStopsAtFailure(respond: Oracle, k: nat, n: nat)
    ensures AllTruthy(respond, k, n) ==> Made(respond, k, n) == n
    ensures !AllTruthy(respond, k, n) ==>
              var m := Made(respond, k, n);
              m > 0 && respond(k + m - 1) != Truthy && AllTruthy(respond, k, m - 1)
    decreases n
  {
    if n > 0 && respond(k) == Truthy {
      MadeStopsAtFailure(respond, k + 1, n - 1);
      assert AllTruthy(respond, k, n) <==> AllTruthy(respond, k + 1, n - 1);
    }
  }

  lemma {:induction false} MadeSplits(respond: Oracle, k: nat, a: nat, b: nat)
    ensures Made(respond, k, a + b)
         == if AllTruthy(respond, k, a) then a + Made(respond, k + a, b) else Made(respond, k, a)
    decreases a
  {
    if a > 0 && respond(k) == Truthy {
      MadeSplits(respond, k + 1, a - 1, b);
      assert AllTruthy(respond, k, a) <==> AllTruthy(respond, k + 1, a - 1);
    }
  }

  /** A trace followed by the calls of a list up to and including the first that is not truthy. */
  function Taken(respond: Oracle, trace: seq<Call>, calls: seq<Call>): seq<Call> {
    trace + calls[..Made(respond, |trace|, |calls|)]
  }

  /** The forward calls that execute_plan makes, and whether it succeeds. */
  function Forward(h: Handlers, respond: Oracle, k: nat): seq<Call> {
    var all := AllCalls(h, STAGES);
    all[..Made(respond, k, |all|)]
  }

  ghost predicate Succeeds(h: Handlers, respond: Oracle, k: nat) {
    AllTruthy(respond, k, |AllCalls(h, STAGES)|)
  }

  /** The rollback calls, made only after a failure. */
  function Backward(h: Handlers, respond: Oracle, k: nat): seq<Call> {
    var all := CallsOf(Rollback, CountOf(h, Rollback));
    all[..Made(respond, k, |all|)]
  }

  // ----- safety of the trace -----

  lemma {:induction false} CallsAreListed(h: Handlers, stages: seq<Stage>, i: nat)
    requires i < |AllCalls(h, stages)|
    ensures AllCalls(h, stages)[i].stage in stages
  {
    var first := CallsOf(stages[0], CountOf(h, stages[0]));
    if i >= |first| {
      CallsAreListed(h, stages[1..], i - |first|);
    }
  }

  lemma {:induction false} FlattenAppend(h: Handlers, a: seq<Stage>, b: seq<Stage>)
    ensures AllCalls(h, a + b) == AllCalls(h, a) + AllCalls(h, b)
  {
    if a == [] {
      assert a + b == b;
    } else {
      FlattenAppend(h, a[1..], b);
      assert (a + b)[1..] == a[1..] + b && (a + b)[0] == a[0];
    }
  }

  /** The calls of the i-th stage stand between those of the stages around it. */
  lemma SplitAt(h: Handlers, stages: seq<Stage>, i: nat)
    requires i < |stages|
    ensures AllCalls(h, stages)
        == AllCalls(h, stages[..i]) + (CallsOf(stages[i], CountOf(h, stages[i])) + AllCalls(h, stages[i + 1..]))
  {
    assert stages == stages[..i] + stages[i..];
    FlattenAppend(h, stages[..i], stages[i..]);
    assert stages[i..][1..] == stages[i + 1..];
  }

  lemma InTheMiddle<T>(before: seq<T>, here: seq<T>, after: seq<T>, i: nat)
    requires |before| + |here| <= i <= |before + (here + after)|
    ensures forall x :: x in here ==> x in (before + (here + after))[..i]
  {
    forall x | x in here ensures x in (before + (here + after))[..i] {
      var j :| 0 <= j < |here| && here[j] == x;
      assert (before + (here + after))[..i][|before| + j] == x;
    }
  }

  /** A call to a stage that occurs only after position p comes after all calls of stage p. */
  lemma LaterStage(h: Handlers, stages: seq<Stage>, p: nat, i: nat)
    requires p < |stages| && i < |AllCalls(h, stages)|
    requires AllCalls(h, stages)[i].stage !in stages[..p + 1]
    ensures forall x :: x in CallsOf(stages[p], CountOf(h, stages[p])) ==> x in AllCalls(h, stages)[..i]
  {
    SplitAt(h, stages, p);
    var before, here := AllCalls(h, stages[..p]), CallsOf(stages[p], CountOf(h, stages[p]));
    assert stages[..p + 1] == stages[..p] + [stages[p]];
    if i < |before| {
      CallsAreListed(h, stages[..p], i);
    }
    InTheMiddle(before, here, AllCalls(h, stages[p + 1..]), i);
  }

  /** No EXECUTE handler is called unless every AUTHORIZE handler was called before it in this run and answered true. */
  lemma ExecuteNeedsAuthorize(h: Handlers, respond: Oracle, k: nat, i: nat)
    requires i < |Forward(h, respond, k)| && Forward(h, respond, k)[i].stage == Execute
    ensures forall x :: x in CallsOf(Authorize, CountOf(h, Authorize)) ==>
              exists j :: 0 <= j < i && Forward(h, respond, k)[j] == x && respond(k + j) == Truthy
  {
    var all, f := AllCalls(h, STAGES), Forward(h, respond, k);
    LaterStage(h, STAGES, 2, i);
    MadeStopsAtFailure(respond, k, |all|);
    forall x | x in CallsOf(Authorize, CountOf(h, Authorize))
      ensures exists j :: 0 <= j < i && f[j] == x && respond(k + j) == Truthy
    {
      assert x in all[..i];
      var j :| 0 <= j < i && all[..i][j] == x;
      assert f[j] == x && respond(k + j) == Truthy;
    }
  }

  // ----- stage by stage -----

  datatype Report = Report(ok: bool, execution: Record, calls: seq<Call>)

  /** What the stage loop does: the stages' handlers in turn, until a stage fails. */
  ghost function Staged(h: Handlers, respond: Oracle, stages: seq<Stage>, e: Record, trace: seq<Call>): Report {
    if stages == [] then Report(true, e, trace) else
      var n := CountOf(h, stages[0]);
      var after := Taken(respond, trace, CallsOf(stages[0], n));
      var entered := e.(status := Executing, stage := stages[0]);
      if AllTruthy(respond, |trace|, n) then Staged(h, respond, stages[1..], entered, after)
      else Report(false, entered, after)
  }

  lemma StagedStep(h: Handlers, respond: Oracle, stages: seq<Stage>, i: nat, e: Record, trace: seq<Call>)
    requires i < |stages|
    ensures var n := CountOf(h, stages[i]);
            var after := Taken(respond, trace, CallsOf(stages[i], n));
            var entered := e.(status := Executing, stage := stages[i]);
            Staged(h, respond, stages[i..], e, trace)
            == if AllTruthy(respond, |trace|, n) then Staged(h, respond, stages[i + 1..], entered, after)
               else Report(false, entered, after)
  {
    assert stages[i..][1..] == stages[i + 1..];
  }

  /** What execute_plan does with the stage loop's answer. */
  ghost function Executed(h: Handlers, respond: Oracle, e: Record, trace: seq<Call>): Report {
    var r := Staged(h, respond, STAGES, e, trace);
    if r.ok then r.(execution := r.execution.(status := Success))
    else Report(false, r.execution.(status := RolledBack),
        Taken(respond, r.calls, CallsOf(Rollback, CountOf(h, Rollback))))
  }

  lemma TakenSplits(respond: Oracle, trace: seq<Call>, here: seq<Call>, rest: seq<Call>)
    ensures AllTruthy(respond, |trace|, |here|) ==>
              Taken(respond, trace, here) == trace + here
              && Taken(respond, trace, here + rest) == Taken(respond, trace + here, rest)
    ensures !AllTruthy(respond, |trace|, |here|) ==> Taken(respond, trace, here + rest) == Taken(respond, trace, here)
  {
    MadeSplits(respond, |trace|, |here|, |rest|);
    MadeStopsAtFailure(respond, |trace|, |here|);
    assert here[..|here|] == here;
  }

  lemma TruthySplits(respond: Oracle, k: nat, a: nat, b: nat)
    ensures AllTruthy(respond, k, a + b) <==> AllTruthy(respond, k, a) && AllTruthy(respond, k + a, b)
  {
  }

  /** The stage loop succeeds exactly when every handler it could call is truthy. */
  lemma {:induction false} StagedSucceeds(h: Handlers, respond: Oracle, stages: seq<Stage>, e: Record, trace: seq<Call>)
    ensures Staged(h, respond, stages, e, trace).ok == AllTruthy(respond, |trace|, |AllCalls(h, stages)|)
  {
    if stages != [] {
      var n := CountOf(h, stages[0]);
      TruthySplits(respond, |trace|, n, |AllCalls(h, stages[1..])|);
      if AllTruthy(respond, |trace|, n) {
        MadeStopsAtFailure(respond, |trace|, n);
        var after := Taken(respond, trace, CallsOf(stages[0], n));
        StagedSucceeds(h, respond, stages[1..], e.(status := Executing, stage := stages[0]), after);
      }
    }
  }

  /** The stage loop makes the calls of the flattened list up to the first failure. */
  lemma {:induction false} StagedIsFlat(h: Handlers, respond: Oracle, stages: seq<Stage>, e: Record, trace: seq<Call>)
    ensures Staged(h, respond, stages, e, trace).calls == Taken(respond, trace, AllCalls(h, stages))
  {
    if stages != [] {
      var n := CountOf(h, stages[0]);
      var here := CallsOf(stages[0], n);
      TakenSplits(respond, trace, here, AllCalls(h, stages[1..]));
      StagedIsFlat(h, respond, stages[1..], e.(status := Executing, stage := stages[0]), Taken(respond, trace, here));
    }
  }

  /** The stage recorded is the last one on success, and the stage of the last call on failure. */
  lemma {:induction false} StagedStage(h: Handlers, respond: Oracle, stages: seq<Stage>, e: Record, trace: seq<Call>)
    requires stages != []
    ensures var r := Staged(h, respond, stages, e, trace);
            r.execution == e.(status := Executing, stage := r.execution.stage)
            && r.execution.stage in stages
            && if r.ok then r.execution.stage == stages[|stages| - 1]
               else |r.calls| > |trace| && r.execution.stage == r.calls[|r.calls| - 1].stage
  {
    var n := CountOf(h, stages[0]);
    MadeStopsAtFailure(respond, |trace|, n);
    if AllTruthy(respond, |trace|, n) && stages[1..] != [] {
      StagedStage(h, respond, stages[1..], e.(status := Executing, stage := stages[0]),
          Taken(respond, trace, CallsOf(stages[0], n)));
    }
  }

  /**
   * execute_plan calls the flattened handlers of the five stages up to and
   * including the first that is not truthy, then on failure the rollback
   * handlers in the same manner. It returns true, with status SUCCESS at
   * VERIFY, exactly when all forward calls are truthy; otherwise the status is
   * ROLLED_BACK at the stage of the last forward call.
   */
  lemma ExecutedOutcome(h: Handlers, respond: Oracle, e: Record, trace: seq<Call>)
    ensures var r, forward := Executed(h, respond, e, trace), Forward(h, respond, |trace|);
            r.ok == Succeeds(h, respond, |trace|)
            && r.execution.plan == e.plan
            && if r.ok then r.calls == trace + forward && r.execution.status == Success && r.execution.stage == Verify
               else forward != [] && r.calls == trace + forward + Backward(h, respond, |trace + forward|)
                    && r.execution.status == RolledBack && r.execution.stage == forward[|forward| - 1].stage
  {
    StagedSucceeds(h, respond, STAGES, e, trace);
    StagedIsFlat(h, respond, STAGES, e, trace);
    StagedStage(h, respond, STAGES, e, trace);
  }

  lemma ExecutedAtRest(h: Handlers, respond: Oracle, e: Record, trace: seq<Call>)
    ensures AtRest(Executed(h, respond, e, trace).execution) && Executed(h, respond, e, trace).execution.plan == e.plan
  {
    StagedStage(h, respond, STAGES, e, trace);
  }

  // ----- which calls are made, and in which order -----

  /** The place of a stage in a run; rollback comes after everything else. */
  function Position(stage: Stage): nat {
    match stage
    case Plan => 0
    case Validate => 1
    case Authorize => 2
    case Execute => 3
    case Verify => 4
    case Rollback => 5
  }

  /** The order in which a run is to make its calls: by stage, and within a stage by registration. */
  predicate Precedes(a: Call, b: Call) {
    Position(a.stage) < Position(b.stage) || (a.stage == b.stage && a.index < b.index)
  }

  predicate Registered(h: Handlers, c: Call) {
    c.stage in h && c.index < h[c.stage]
  }

  /** The calls keep to the order, and none is made twice. */
  ghost predicate InOrder(calls: seq<Call>) {
    forall i, j :: 0 <= i < j < |calls| ==> Precedes(calls[i], calls[j])
  }

  lemma OneStage(h: Handlers, stage: Stage)
    ensures InOrder(CallsOf(stage, CountOf(h, stage)))
    ensures forall c :: c in CallsOf(stage, CountOf(h, stage)) <==> c.stage == stage && Registered(h, c)
  {
    var calls := CallsOf(stage, CountOf(h, stage));
    forall c: Call | c.stage == stage && Registered(h, c) ensures c in calls {
      assert calls[c.index] == c;
    }
  }

  lemma InOrderConcat(a: seq<Call>, b: seq<Call>)
    requires InOrder(a) && InOrder(b) && forall x, y :: x in a && y in b ==> Precedes(x, y)
    ensures InOrder(a + b)
  {
    forall i, j | 0 <= i < j < |a + b| ensures Precedes((a + b)[i], (a + b)[j]) {
      if i < |a| <= j {
        assert a[i] in a && b[j - |a|] in b;
      }
    }
  }

  /** The flattened list holds the registered handlers of the listed stages, in the order of their stages. */
  lemma {:induction false} FlattenedCalls(h: Handlers, stages: seq<Stage>)
    requires forall i, j :: 0 <= i < j < |stages| ==> Position(stages[i]) < Position(stages[j])
    ensures InOrder(AllCalls(h, stages))
    ensures forall c :: c in AllCalls(h, stages) <==> c.stage in stages && Registered(h, c)
  {
    if stages != [] {
      var first, rest := CallsOf(stages[0], CountOf(h, stages[0])), AllCalls(h, stages[1..]);
      OneStage(h, stages[0]);
      FlattenedCalls(h, stages[1..]);
      forall a, b | a in first && b in rest ensures Precedes(a, b) {
        var i :| 0 <= i < |stages[1..]| && stages[1..][i] == b.stage;
        assert stages[i + 1] == b.stage;
      }
      InOrderConcat(first, rest);
      forall c: Call ensures c in AllCalls(h, stages) <==> c.stage in stages && Registered(h, c) {
        assert c.stage in stages <==> c.stage == stages[0] || c.stage in stages[1..];
      }
    }
  }

  /**
   * calls are the wanted ones up to the first that is not truthy, in order: what is
   * left out comes after that one.
   */
  ghost predicate UpToFailure(calls: seq<Call>, wanted: iset<Call>, respond: Oracle, k: nat) {
    && InOrder(calls)
    && (forall c :: c in calls ==> c in wanted)
    && (calls != [] ==> AllTruthy(respond, k, |calls| - 1))
    && (forall c :: c in wanted && c !in calls ==>
          calls != [] && respond(k + |calls| - 1) != Truthy && Precedes(calls[|calls| - 1], c))
  }

  lemma CutUpToFailure(all: seq<Call>, wanted: iset<Call>, respond: Oracle, k: nat)
    requires InOrder(all) && forall c :: c in all <==> c in wanted
    ensures UpToFailure(all[..Made(respond, k, |all|)], wanted, respond, k)
    ensures AllTruthy(respond, k, |all|) <==> AllTruthy(respond, k, Made(respond, k, |all|))
  {
    var m := Made(respond, k, |all|);
    var calls := all[..m];
    MadeStopsAtFailure(respond, k, |all|);
    forall c | c in all && c !in calls
      ensures calls != [] && respond(k + m - 1) != Truthy && Precedes(calls[m - 1], c)
    {
      var i :| 0 <= i < |all| && all[i] == c;
      assert forall j :: 0 <= j < m ==> calls[j] == all[j];
    }
  }

  /** The registered handlers of the five stages from PLAN to VERIFY. */
  ghost function ForwardHandlers(h: Handlers): iset<Call> {
    iset c: Call | Registered(h, c) && c.stage != Rollback
  }

  ghost function RollbackHandlers(h: Handlers): iset<Call> {
    iset c: Call | Registered(h, c) && c.stage == Rollback
  }

  lemma ForwardCalls(h: Handlers, respond: Oracle, k: nat)
    ensures UpToFailure(Forward(h, respond, k), ForwardHandlers(h), respond, k)
    ensures Succeeds(h, respond, k) <==> AllTruthy(respond, k, |Forward(h, respond, k)|)
  {
    FlattenedCalls(h, STAGES);
    assert forall s: Stage :: s in STAGES <==> s != Rollback by {
      assert STAGES[0] == Plan && STAGES[1] == Validate && STAGES[2] == Authorize;
      assert STAGES[3] == Execute && STAGES[4] == Verify;
    }
    CutUpToFailure(AllCalls(h, STAGES), ForwardHandlers(h), respond, k);
  }

  lemma BackwardCalls(h: Handlers, respond: Oracle, k: nat)
    ensures UpToFailure(Backward(h, respond, k), RollbackHandlers(h), respond, k)
  {
    OneStage(h, Rollback);
    CutUpToFailure(CallsOf(Rollback, CountOf(h, Rollback)), RollbackHandlers(h), respond, k);
  }

  /**
   * A run makes the forward calls in the order PLAN, VALIDATE, AUTHORIZE, EXECUTE,
   * VERIFY up to the first failure. Without one, every handler of the five stages
   * was called and truthy, and nothing is rolled back; with one, the rollback
   * handlers are called in the same manner.
   */
  lemma ExecutedCalls(h: Handlers, respond: Oracle, e: Record, trace: seq<Call>)
    returns (forward: seq<Call>, backward: seq<Call>)
    ensures var r := Executed(h, respond, e, trace);
            && r.calls == trace + forward + backward
            && (r.ok <==> AllTruthy(respond, |trace|, |forward|))
            && (r.ok ==> backward == [] && forall c :: c in ForwardHandlers(h) ==> c in forward)
            && (!r.ok ==> UpToFailure(backward, RollbackHandlers(h), respond, |trace + forward|))
    ensures UpToFailure(forward, ForwardHandlers(h), respond, |trace|)
  {
    forward := Forward(h, respond, |trace|);
    ExecutedOutcome(h, respond, e, trace);
    ForwardCalls(h, respond, |trace|);
    BackwardCalls(h, respond, |trace + forward|);
    backward := if Executed(h, respond, e, trace).ok then [] else Backward(h, respond, |trace + forward|);
    assert trace + forward + [] == trace + forward;
  }

  // ----- implementation -----

  class PipelineStageHandler {
    const stage: Stage
    var count: nat

    constructor (stage: Stage)
      ensures this.stage == stage && count == 0
    {
      this.stage, count := stage, 0;
    }

    /** A handler is its position in the stage's list. */
    method Register()
      modifies this
      ensures count == old(count) + 1
    {
      count := count + 1;
    }

    /** trace holds the handler calls made so far in this run. */
    method ExecuteAll(respond: Oracle, trace: seq<Call>) returns (ok: bool, after: seq<Call>)
      ensures after == Taken(respond, trace, CallsOf(stage, count))
      ensures ok <==> AllTruthy(respond, |trace|, count)
    {
      after := trace;
      var all := CallsOf(stage, count);
      for i := 0 to count
        invariant after == trace + all[..i] && AllTruthy(respond, |trace|, i)
        invariant Made(respond, |trace|, count) == i + Made(respond, |trace| + i, count - i)
      {
        var response := respond(|after|);
        after := after + [Call(stage, i)];
        if response != Truthy {
          return false, after;
        }
      }
      return true, after;
    }
  }

  class Execution {
    const plan: ExecutionPlan
    var status: Status
    var stage: Stage

    constructor (plan: ExecutionPlan)
      ensures Shown() == Record(plan, Pending, Plan)
    {
      this.plan, status, stage := plan, Pending, Plan;
    }

    function Shown(): Record
      reads this
    {
      Record(plan, status, stage)
    }
  }

  class ExecutionPipeline {
    const stages: map<Stage, PipelineStageHandler>
    var executions: map<string, Execution>

    ghost predicate Equipped() {
      forall s: Stage :: s in stages && stages[s].stage == s
    }

    ghost predicate Valid()
      reads this, executions.Values
    {
      Equipped()
      && forall id :: id in executions ==> AtRest(executions[id].Shown()) && executions[id].plan.id == id
    }

    function Counts(): Handlers
      reads stages.Values
    {
      map s | s in stages :: stages[s].count
    }

    constructor ()
      ensures Valid() && executions == map[] && fresh(stages.Values)
      ensures forall s: Stage :: CountOf(Counts(), s) == 0
    {
      var plan := new PipelineStageHandler(Plan);
      var check := new PipelineStageHandler(Validate);
      var authorize := new PipelineStageHandler(Authorize);
      var execute := new PipelineStageHandler(Execute);
      var verify := new PipelineStageHandler(Verify);
      var undo := new PipelineStageHandler(Rollback);
      stages := map[Plan := plan, Validate := check, Authorize := authorize,
          Execute := execute, Verify := verify, Rollback := undo];
      executions := map[];
      new;
      forall s: Stage ensures s in stages && stages[s].stage == s && stages[s].count == 0 {
        match s { case Plan => case Validate => case Authorize => case Execute => case Verify => case Rollback => }
      }
    }

    /** Submitting an id again replaces its execution. */
    method SubmitPlan(plan: ExecutionPlan) returns (id: string)
      requires Valid()
      modifies this
      ensures Valid() && id == plan.id && id in executions
      ensures executions == old(executions)[id := executions[id]] && fresh(executions[id])
      ensures executions[id].Shown() == Record(plan, Pending, Plan)
    {
      var execution := new Execution(plan);
      executions := executions[plan.id := execution];
      return plan.id;
    }

    /** trace holds the handler calls made before; after adds those of this call. */
    method ExecutePlan(id: string, respond: Oracle, trace: seq<Call>) returns (ok: bool, after: seq<Call>)
      requires Valid()
      modifies if id in executions then {executions[id]} else {}
      ensures Valid()
      ensures id !in executions ==> !ok && after == trace
      ensures id in executions ==>
                Report(ok, executions[id].Shown(), after)
                    == Executed(Counts(), respond, old(executions[id].Shown()), trace)
    {
      if id !in executions { return false, trace; }
      ExecutedAtRest(Counts(), respond, executions[id].Shown(), trace);
      ok, after := RunStages(id, respond, trace, Counts());
    }

    ghost predicate Offers(h: Handlers)
      reads stages.Values
    {
      Equipped() && forall s: Stage :: CountOf(h, s) == stages[s].count
    }

    /** The part of execute_plan after the plan is found. */
    method RunStages(id: string, respond: Oracle, trace: seq<Call>, ghost h: Handlers)
      returns (ok: bool, after: seq<Call>)
      requires id in executions && Offers(h)
      modifies executions[id]
      ensures Report(ok, executions[id].Shown(), after) == Executed(h, respond, old(executions[id].Shown()), trace)
    {
      var execution := executions[id];
      ghost var e := execution.Shown();
      after := trace;
      for i := 0 to |STAGES|
        invariant Staged(h, respond, STAGES[i..], execution.Shown(), after) == Staged(h, respond, STAGES, e, trace)
      {
        var stage := STAGES[i];
        StagedStep(h, respond, STAGES, i, execution.Shown(), after);
        execution.stage, execution.status := stage, Executing;
        ok, after := stages[stage].ExecuteAll(respond, after);
        if !ok {
          execution.status := Failed;
          after := Undo(id, respond, after, h);
          return;
        }
      }
      execution.status := Success;
      return true, after;
    }

    /** The stage at which the execution failed is kept; the rollback handlers' answer is ignored. */
    method Undo(id: string, respond: Oracle, trace: seq<Call>, ghost h: Handlers) returns (after: seq<Call>)
      requires Offers(h)
      modifies if id in executions then {executions[id]} else {}
      ensures id !in executions ==> after == trace
      ensures id in executions ==>
                after == Taken(respond, trace, CallsOf(Rollback, CountOf(h, Rollback)))
                && executions[id].Shown() == old(executions[id].Shown()).(status := RolledBack)
    {
      after := trace;
      if id in executions {
        executions[id].status := RolledBack;
        var _, all := stages[Rollback].ExecuteAll(respond, trace);
        after := all;
      }
    }
  }
}
