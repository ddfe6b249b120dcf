/**
 * The multi-lane scheduler (kernel/scheduler.py:20-166). Handlers are oracles:
 * for each call, the messages they submit to the scheduler before they return
 * or raise. Clocks are oracles too.
 */
module Scheduling {
  import opened Wrappers
  import opened Sequences

  datatype Lane = Cognitive | Orchestration | Substrate | Governance

  /** The order in which a cycle visits the lanes. */
  const LANES: seq<Lane> := [Cognitive, Orchestration, Substrate, Governance]

  datatype Message = Message(id: string, lane: Lane, priority: int, timestamp: real, maxAgeMs: int) {
    predicate IsStale(now: real) {
      (now - timestamp) * 1000.0 > maxAgeMs as real
    }
  }

  datatype Submission = Submission(lane: Lane, message: Message)

  /** What one handler call does: submissions in order, and then whether it raises. */
  datatype Effect = Effect(submissions: seq<Submission>, raises: bool)

  /** The handlers' effects and the times of the staleness checks in one cycle. */
  datatype Oracle = Oracle(handle: (Lane, Message) -> Effect, clock: Lane -> real)

  // ----- specification -----

  datatype Fate = Stale | Handled | Raised | Unhandled

  /** A message that left its lane: when it was dequeued and what became of it. */
  datatype Departure = Departure(message: Message, fate: Fate, at: real)

  /** queue, processed and dropped are the lane's own; offered, accepted and left are its history. */
  datatype LaneState = LaneState(maxSize: int, queue: seq<Message>, processed: nat, dropped: nat,
                                 offered: nat, accepted: seq<Message>, left: seq<Departure>)

  datatype State = State(lanes: map<Lane, LaneState>, handlers: set<Lane>)

  lemma FourLanes<T>(lanes: map<Lane, T>, x: T)
    requires lanes == map[Cognitive := x, Orchestration := x, Substrate := x, Governance := x]
    ensures forall l: Lane :: l in lanes && lanes[l] == x
  {
    forall l: Lane ensures l in lanes && lanes[l] == x {
      match l
      case Cognitive =>
      case Orchestration =>
      case Substrate =>
      case Governance =>
    }
  }

  function Fresh(maxSize: int, handlers: set<Lane>): (s: State)
    ensures forall l: Lane :: l in s.lanes && s.lanes[l] == LaneState(maxSize, [], 0, 0, 0, [], [])
  {
    var empty := LaneState(maxSize, [], 0, 0, 0, [], []);
    var lanes := map[Cognitive := empty, Orchestration := empty, Substrate := empty, Governance := empty];
    FourLanes(lanes, empty);
    State(lanes, handlers)
  }

  type Sched = s: State | forall l: Lane :: l in s.lanes
    witness Fresh(0, {})

  /** The messages the lanes have processed, together. */
  function Processed(s: Sched): nat {
    s.lanes[Cognitive].processed + s.lanes[Orchestration].processed
    + s.lanes[Substrate].processed + s.lanes[Governance].processed
  }

  function Offer(q: LaneState, m: Message): LaneState {
    if |q.queue| >= q.maxSize then q.(dropped := q.dropped + 1, offered := q.offered + 1)
    else q.(queue := q.queue + [m], offered := q.offered + 1, accepted := q.accepted + [m])
  }

  function SetLane(s: Sched, l: Lane, q: LaneState): Sched {
    s.(lanes := s.lanes[l := q])
  }

  function Submit(s: Sched, l: Lane, m: Message): Sched {
    SetLane(s, l, Offer(s.lanes[l], m))
  }

  function SubmitAll(s: Sched, submissions: seq<Submission>): Sched
    decreases |submissions|
  {
    if submissions == [] then s else
      SubmitAll(Submit(s, submissions[0].lane, submissions[0].message), submissions[1..])
  }

  /** The lane after a dequeued message met its fate. */
  function Settle(q: LaneState, d: Departure): LaneState {
    var counted :=
      match d.fate
      case Stale => q.(dropped := q.dropped + 1)
      case Raised => q.(dropped := q.dropped + 1)
      case Handled => q.(processed := q.processed + 1)
      case Unhandled => q;
    counted.(left := q.left + [d])
  }

  /** What becomes of the message that lane l dequeues. */
  function FateOf(s: Sched, l: Lane, m: Message, o: Oracle): Fate {
    if m.IsStale(o.clock(l)) then Stale
    else if l !in s.handlers then Unhandled
    else if o.handle(l, m).raises then Raised
    else Handled
  }

  function Popped(s: Sched, l: Lane): Sched
    requires s.lanes[l].queue != []
  {
    SetLane(s, l, s.lanes[l].(queue := s.lanes[l].queue[1..]))
  }

  /** One lane's turn in a cycle. */
  function Turn(s: Sched, l: Lane, o: Oracle): Sched {
    if s.lanes[l].queue == [] then s else
      var m := s.lanes[l].queue[0];
      var fate := FateOf(s, l, m, o);
      var t := if fate == Stale || fate == Unhandled then Popped(s, l)
               else SubmitAll(Popped(s, l), o.handle(l, m).submissions);
      SetLane(t, l, Settle(t.lanes[l], Departure(m, fate, o.clock(l))))
  }

  /**
   * A message that is stale or has no handler is settled as soon as it is off the
   * queue; others after their handler's submissions.
   */
  lemma TurnSettles(s: Sched, l: Lane, o: Oracle)
    requires s.lanes[l].queue != []
    ensures var m, p := s.lanes[l].queue[0], Popped(s, l);
            var fate := FateOf(s, l, m, o);
            var t := if fate == Stale || fate == Unhandled then p else SubmitAll(p, o.handle(l, m).submissions);
            Turn(s, l, o) == SetLane(t, l, Settle(t.lanes[l], Departure(m, fate, o.clock(l))))
  {
  }

  lemma {:induction false} SubmittingProcessesNothing(s: Sched, submissions: seq<Submission>)
    ensures Processed(SubmitAll(s, submissions)) == Processed(s)
    decreases |submissions|
  {
    if submissions != [] {
      SubmittingProcessesNothing(Submit(s, submissions[0].lane, submissions[0].message), submissions[1..]);
    }
  }

  lemma SettlingProcesses(s: Sched, l: Lane, d: Departure)
    ensures Processed(SetLane(s, l, Settle(s.lanes[l], d))) == Processed(s) + if d.fate == Handled then 1 else 0
  {
  }

  lemma TurnProcesses(s: Sched, l: Lane, o: Oracle)
    ensures Processed(Turn(s, l, o)) == Processed(s)
            + if s.lanes[l].queue != [] && FateOf(s, l, s.lanes[l].queue[0], o) == Handled then 1 else 0
  {
    if s.lanes[l].queue != [] {
      var m, p := s.lanes[l].queue[0], Popped(s, l);
      var fate := FateOf(s, l, m, o);
      var t := if fate == Stale || fate == Unhandled then p else SubmitAll(p, o.handle(l, m).submissions);
      TurnSettles(s, l, o);
      SubmittingProcessesNothing(p, o.handle(l, m).submissions);
      SettlingProcesses(t, l, Departure(m, fate, o.clock(l)));
    }
  }

  function Turns(s: Sched, ls: seq<Lane>, o: Oracle): Sched
    decreases |ls|
  {
    if ls == [] then s else Turns(Turn(s, ls[0], o), ls[1..], o)
  }

  datatype Op = SubmitOp(lane: Lane, message: Message) | CycleOp(oracle: Oracle) | RegisterOp(lane: Lane)

  function Step(s: Sched, op: Op): Sched {
    match op
    case SubmitOp(l, m) => Submit(s, l, m)
    case CycleOp(o) => Turns(s, LANES, o)
    case RegisterOp(l) => s.(handlers := s.handlers + {l})
  }

  function Run(s: Sched, ops: seq<Op>): Sched
    decreases |ops|
  {
    if ops == [] then s else Run(Step(s, ops[0]), ops[1..])
  }

  function Cycles(ops: seq<Op>): nat {
    if ops == [] then 0 else (if ops[0].CycleOp? then 1 else 0) + Cycles(ops[1..])
  }

  // ----- invariants -----

  function Count(left: seq<Departure>, fate: Fate): nat {
    if left == [] then 0 else
      Count(left[..|left| - 1], fate) + if left[|left| - 1].fate == fate then 1 else 0
  }

  /** The departures are the first accepted messages, in order; stale exactly when found stale. */
  ghost predicate Fifo(left: seq<Departure>, accepted: seq<Message>) {
    && |left| <= |accepted|
    && forall i :: 0 <= i < |left| ==>
         left[i].message == accepted[i] && (left[i].fate == Stale <==> accepted[i].IsStale(left[i].at))
  }

  /** What every point between calls keeps of a lane. */
  ghost predicate LaneKept(q: LaneState) {
    && Fifo(q.left, q.accepted) && q.queue == q.accepted[|q.left|..]
    && q.processed == Count(q.left, Handled)
    && q.offered - |q.accepted| == q.dropped - Count(q.left, Stale) - Count(q.left, Raised) >= 0
  }

  /** A lane in the middle of its turn: m is off the queue and its fate is not settled yet. */
  ghost predicate LaneInTurn(q: LaneState, m: Message) {
    && Fifo(q.left, q.accepted) && q.accepted[|q.left|..] == [m] + q.queue
    && q.processed == Count(q.left, Handled)
    && q.offered - |q.accepted| == q.dropped - Count(q.left, Stale) - Count(q.left, Raised) >= 0
  }

  /** r only adds to q: more submissions at the end, more departures at the end. */
  ghost predicate Grows(q: LaneState, r: LaneState) {
    q.accepted <= r.accepted && q.left <= r.left && q.offered <= r.offered && q.maxSize == r.maxSize
  }

  lemma {:induction false} CountTotal(left: seq<Departure>)
    ensures |left| == Count(left, Stale) + Count(left, Handled) + Count(left, Raised) + Count(left, Unhandled)
  {
    if left != [] {
      CountTotal(left[..|left| - 1]);
    }
  }

  lemma CountAppend(left: seq<Departure>, d: Departure, fate: Fate)
    ensures Count(left + [d], fate) == Count(left, fate) + if d.fate == fate then 1 else 0
  {
    assert (left + [d])[..|left|] == left;
  }

  lemma OfferKeeps(q: LaneState, m: Message)
    requires LaneKept(q)
    ensures LaneKept(Offer(q, m)) && Grows(q, Offer(q, m)) && Offer(q, m).left == q.left
  {
    assert (q.accepted + [m])[|q.left|..] == q.accepted[|q.left|..] + [m];
  }

  lemma OfferKeepsInTurn(q: LaneState, m: Message, x: Message)
    requires LaneInTurn(q, x)
    ensures LaneInTurn(Offer(q, m), x) && Grows(q, Offer(q, m)) && Offer(q, m).left == q.left
  {
    assert (q.accepted + [m])[|q.left|..] == q.accepted[|q.left|..] + [m];
    assert [x] + (q.queue + [m]) == [x] + q.queue + [m];
  }

  lemma SettleKeeps(q: LaneState, d: Departure)
    requires LaneInTurn(q, d.message) && (d.fate == Stale <==> d.message.IsStale(d.at))
    ensures LaneKept(Settle(q, d)) && Grows(q, Settle(q, d))
  {
    var r := Settle(q, d);
    assert q.accepted[|q.left|] == q.accepted[|q.left|..][0] == d.message;
    assert q.accepted[|q.left| + 1..] == q.accepted[|q.left|..][1..] == q.queue;
    CountAppend(q.left, d, Handled);
    CountAppend(q.left, d, Stale);
    CountAppend(q.left, d, Raised);
  }

  lemma {:induction false} SubmitAllKeeps(s: Sched, submissions: seq<Submission>, k: Lane)
    requires LaneKept(s.lanes[k])
    ensures var q, r := s.lanes[k], SubmitAll(s, submissions).lanes[k];
            LaneKept(r) && Grows(q, r) && r.left == q.left
    ensures SubmitAll(s, submissions).handlers == s.handlers
    decreases |submissions|
  {
    if submissions != [] {
      OfferKeeps(s.lanes[k], submissions[0].message);
      SubmitAllKeeps(Submit(s, submissions[0].lane, submissions[0].message), submissions[1..], k);
    }
  }

  lemma {:induction false} SubmitAllKeepsInTurn(s: Sched, submissions: seq<Submission>, l: Lane, m: Message)
    requires LaneInTurn(s.lanes[l], m)
    ensures var q, r := s.lanes[l], SubmitAll(s, submissions).lanes[l];
            LaneInTurn(r, m) && Grows(q, r) && r.left == q.left
    ensures SubmitAll(s, submissions).handlers == s.handlers
    decreases |submissions|
  {
    if submissions != [] {
      OfferKeepsInTurn(s.lanes[l], submissions[0].message, m);
      SubmitAllKeepsInTurn(Submit(s, submissions[0].lane, submissions[0].message), submissions[1..], l, m);
    }
  }

  /** What some part of a run does to a lane, with the bounds on its departures. */
  ghost predicate Moves(q: LaneState, r: LaneState, least: nat, most: nat, handled: bool) {
    && LaneKept(r) && Grows(q, r)
    && |q.left| + least <= |r.left| <= |q.left| + most
    && (handled ==> Count(r.left, Unhandled) == Count(q.left, Unhandled))
  }

  lemma OtherTurnKeeps(s: Sched, l: Lane, o: Oracle, k: Lane)
    requires LaneKept(s.lanes[k]) && k != l
    ensures Turn(s, l, o).handlers == s.handlers
    ensures Moves(s.lanes[k], Turn(s, l, o).lanes[k], 0, 0, true)
  {
    if s.lanes[l].queue != [] {
      SubmitAllKeeps(Popped(s, l), o.handle(l, s.lanes[l].queue[0]).submissions, k);
    }
  }

  lemma PopStartsTurn(q: LaneState)
    requires LaneKept(q) && q.queue != []
    ensures LaneInTurn(q.(queue := q.queue[1..]), q.queue[0]) && Grows(q, q.(queue := q.queue[1..]))
  {
    assert q.queue == [q.queue[0]] + q.queue[1..];
  }

  lemma EndTurn(q: LaneState, t: LaneState, d: Departure)
    requires LaneInTurn(t, d.message) && Grows(q, t) && t.left == q.left
    requires d.fate == Stale <==> d.message.IsStale(d.at)
    ensures Moves(q, Settle(t, d), 1, 1, d.fate != Unhandled)
  {
    SettleKeeps(t, d);
    CountAppend(t.left, d, Unhandled);
  }

  lemma OwnTurnKeeps(s: Sched, l: Lane, o: Oracle)
    requires LaneKept(s.lanes[l]) && s.lanes[l].queue != []
    ensures Turn(s, l, o).handlers == s.handlers
    ensures Moves(s.lanes[l], Turn(s, l, o).lanes[l], 1, 1, l in s.handlers)
  {
    var q := s.lanes[l];
    var m, p := q.queue[0], Popped(s, l);
    var fate := FateOf(s, l, m, o);
    PopStartsTurn(q);
    TurnSettles(s, l, o);
    if fate == Stale || fate == Unhandled {
      EndTurn(q, p.lanes[l], Departure(m, fate, o.clock(l)));
    } else {
      var t := SubmitAll(p, o.handle(l, m).submissions);
      SubmitAllKeepsInTurn(p, o.handle(l, m).submissions, l, m);
      EndTurn(q, t.lanes[l], Departure(m, fate, o.clock(l)));
    }
  }

  lemma GrowsOn(q: LaneState, r: LaneState, t: LaneState)
    requires Grows(q, r) && Grows(r, t)
    ensures Grows(q, t)
  {
  }

  lemma StillQueued(q: LaneState, r: LaneState)
    requires LaneKept(q) && LaneKept(r) && Grows(q, r) && q.queue != [] && |r.left| == |q.left|
    ensures r.queue != []
  {
  }

  lemma TurnKeeps(s: Sched, l: Lane, o: Oracle, k: Lane)
    requires LaneKept(s.lanes[k])
    ensures Turn(s, l, o).handlers == s.handlers
    ensures var q := s.lanes[k];
            Moves(q, Turn(s, l, o).lanes[k],
                if k == l && q.queue != [] then 1 else 0, if k == l then 1 else 0, k in s.handlers)
    ensures k != l && s.lanes[k].queue != [] ==> Turn(s, l, o).lanes[k].queue != []
  {
    if k != l {
      OtherTurnKeeps(s, l, o, k);
      if s.lanes[k].queue != [] { StillQueued(s.lanes[k], Turn(s, l, o).lanes[k]); }
    } else if s.lanes[k].queue != [] {
      OwnTurnKeeps(s, k, o);
    }
  }

  /** A pass over distinct lanes lets a listed lane with a message lose exactly its oldest one. */
  lemma {:induction false} TurnsKeep(s: Sched, ls: seq<Lane>, o: Oracle, k: Lane)
    requires LaneKept(s.lanes[k]) && NoDuplicates(ls)
    ensures Turns(s, ls, o).handlers == s.handlers
    ensures var q := s.lanes[k];
            Moves(q, Turns(s, ls, o).lanes[k],
                if k in ls && q.queue != [] then 1 else 0, if k in ls then 1 else 0, k in s.handlers)
    decreases |ls|
  {
    if ls != [] {
      var t := Turn(s, ls[0], o);
      assert k in ls <==> k == ls[0] || k in ls[1..];
      assert k == ls[0] ==> k !in ls[1..];
      TurnKeeps(s, ls[0], o, k);
      TurnsKeep(t, ls[1..], o, k);
      GrowsOn(s.lanes[k], t.lanes[k], Turns(s, ls, o).lanes[k]);
    }
  }

  lemma StepKeeps(s: Sched, op: Op, k: Lane)
    requires LaneKept(s.lanes[k])
    ensures k in s.handlers ==> k in Step(s, op).handlers
    ensures var q := s.lanes[k];
            Moves(q, Step(s, op).lanes[k],
                if op.CycleOp? && q.queue != [] then 1 else 0, if op.CycleOp? then 1 else 0, k in s.handlers)
  {
    match op
    case SubmitOp(l, m) => OfferKeeps(s.lanes[k], m);
    case CycleOp(o) => TurnsKeep(s, LANES, o, k);
    case RegisterOp(l) =>
  }

  /**
   * On every run, whatever the handlers submit, a lane's departures are its accepted
   * messages in order, and its counters are exact.
   */
  lemma {:induction false} RunKeeps(s: Sched, ops: seq<Op>, k: Lane)
    requires LaneKept(s.lanes[k])
    ensures Moves(s.lanes[k], Run(s, ops).lanes[k], 0, Cycles(ops), k in s.handlers)
    decreases |ops|
  {
    if ops != [] {
      var t := Step(s, ops[0]);
      StepKeeps(s, ops[0], k);
      RunKeeps(t, ops[1..], k);
      GrowsOn(s.lanes[k], t.lanes[k], Run(s, ops).lanes[k]);
    }
  }

  // ----- conservation -----

  lemma {:induction false} CountZero(left: seq<Departure>, fate: Fate)
    ensures Count(left, fate) == 0 <==> forall i :: 0 <= i < |left| ==> left[i].fate != fate
  {
    if left != [] {
      CountZero(left[..|left| - 1], fate);
    }
  }

  /**
   * What is not queued, processed or dropped was dequeued by a lane without a
   * handler: conservation holds exactly without such messages.
   */
  lemma Conservation(q: LaneState)
    requires LaneKept(q)
    ensures q.offered == |q.queue| + q.processed + q.dropped + Count(q.left, Unhandled)
    ensures q.offered == |q.queue| + q.processed + q.dropped
        <==> forall i :: 0 <= i < |q.left| ==> q.left[i].fate != Unhandled
  {
    CountTotal(q.left);
    CountZero(q.left, Unhandled);
  }

  /** For a lane whose handler is registered from the start, submissions are conserved at every point of every run. */
  lemma RunConserves(maxSize: int, handlers: set<Lane>, ops: seq<Op>, k: Lane)
    requires k in handlers
    ensures var q := Run(Fresh(maxSize, handlers), ops).lanes[k];
            q.offered == |q.queue| + q.processed + q.dropped
  {
    var s := Fresh(maxSize, handlers);
    RunKeeps(s, ops, k);
    Conservation(Run(s, ops).lanes[k]);
  }

  // ----- order and time of departure -----

  lemma QueueLength(q: LaneState)
    requires LaneKept(q)
    ensures |q.queue| == |q.accepted| - |q.left|
    ensures forall i :: 0 <= i < |q.queue| ==> q.queue[i] == q.accepted[|q.left| + i]
  {
  }

  /** As long as the messages last, each cycle takes exactly one off the lane. */
  lemma {:induction false} OnePerCycle(s: Sched, ops: seq<Op>, k: Lane)
    requires LaneKept(s.lanes[k]) && Cycles(ops) <= |s.lanes[k].queue|
    ensures |Run(s, ops).lanes[k].left| == |s.lanes[k].left| + Cycles(ops)
    decreases |ops|
  {
    if ops != [] {
      StepKeeps(s, ops[0], k);
      QueueLength(s.lanes[k]);
      QueueLength(Step(s, ops[0]).lanes[k]);
      OnePerCycle(Step(s, ops[0]), ops[1..], k);
    }
  }

  lemma RunGrows(s: Sched, ops: seq<Op>, k: Lane)
    requires LaneKept(s.lanes[k])
    ensures LaneKept(Run(s, ops).lanes[k]) && Grows(s.lanes[k], Run(s, ops).lanes[k])
  {
    RunKeeps(s, ops, k);
  }

  /** Where the message at position p of q is found once c messages have left. */
  lemma MessageAt(q: LaneState, r: LaneState, p: nat, c: nat)
    requires LaneKept(q) && LaneKept(r) && Grows(q, r) && p < |q.queue| && |r.left| == |q.left| + c
    ensures if c <= p then p - c < |r.queue| && r.queue[p - c] == q.queue[p]
            else r.left[|q.left| + p].message == q.queue[p]
  {
    QueueLength(q);
    QueueLength(r);
    assert q.accepted[|q.left| + p] == r.accepted[|q.left| + p];
  }

  /**
   * A message at position p of its lane is still queued, c places nearer, after c <=
   * p cycles, and has left after p + 1.
   */
  lemma LeavesOnItsCycle(s: Sched, ops: seq<Op>, k: Lane, p: nat)
    requires LaneKept(s.lanes[k]) && p < |s.lanes[k].queue| && Cycles(ops) <= p + 1
    ensures var q, r, c := s.lanes[k], Run(s, ops).lanes[k], Cycles(ops);
            && |r.left| == |q.left| + c
            && if c <= p then p - c < |r.queue| && r.queue[p - c] == q.queue[p]
               else r.left[|q.left| + p].message == q.queue[p]
  {
    OnePerCycle(s, ops, k);
    RunGrows(s, ops, k);
    MessageAt(s.lanes[k], Run(s, ops).lanes[k], p, Cycles(ops));
  }

  function Handed(left: seq<Departure>): seq<Message> {
    if left == [] then [] else
      var n := |left| - 1;
      Handed(left[..n]) + if left[n].fate == Handled || left[n].fate == Raised then [left[n].message] else []
  }

  /** a is obtained from b by leaving elements out. */
  ghost predicate Subsequence(a: seq<Message>, b: seq<Message>)
    decreases |b|
  {
    if a == [] then true else if b == [] then false else
      var i, j := |a| - 1, |b| - 1;
      (a[i] == b[j] && Subsequence(a[..i], b[..j])) || Subsequence(a, b[..j])
  }

  /** The messages handed to the handler are accepted ones, in the order they were accepted, and none was stale. */
  lemma {:induction false} HandedInOrder(left: seq<Departure>, accepted: seq<Message>)
    requires Fifo(left, accepted)
    ensures Subsequence(Handed(left), accepted[..|left|])
    ensures forall i :: 0 <= i < |left| && (left[i].fate == Handled || left[i].fate == Raised) ==>
              !left[i].message.IsStale(left[i].at)
  {
    if left != [] {
      var n := |left| - 1;
      HandedInOrder(left[..n], accepted);
      var a, b := Handed(left), accepted[..|left|];
      assert b[..n] == accepted[..n];
      if left[n].fate == Handled || left[n].fate == Raised {
        assert a[..|a| - 1] == Handed(left[..n]) && b[n] == left[n].message;
      } else {
        assert a == Handed(left[..n]);
      }
    }
  }

  // ----- what a turn and a cycle do -----

  /** The messages submitted to lane k, in order. */
  function SubmittedTo(submissions: seq<Submission>, k: Lane): seq<Message> {
    if submissions == [] then [] else
      (if submissions[0].lane == k then [submissions[0].message] else []) + SubmittedTo(submissions[1..], k)
  }

  /** How many of n more messages fit. */
  function Fitting(q: LaneState, n: nat): nat {
    if |q.queue| + n <= q.maxSize then n else if |q.queue| < q.maxSize then q.maxSize - |q.queue| else 0
  }

  /** r is q after it was offered ms: it takes them in order while there is room, and drops the rest. */
  ghost predicate Takes(q: LaneState, r: LaneState, ms: seq<Message>) {
    var n := Fitting(q, |ms|);
    && r.queue == q.queue + ms[..n] && r.dropped == q.dropped + |ms| - n
    && r.processed == q.processed && r.maxSize == q.maxSize
  }

  lemma TakesFirst(q: LaneState, r: LaneState, m: Message, rest: seq<Message>)
    requires Takes(Offer(q, m), r, rest)
    ensures Takes(q, r, [m] + rest)
  {
    var ms := [m] + rest;
    if |q.queue| < q.maxSize {
      assert ms[..Fitting(q, |ms|)] == [m] + rest[..Fitting(q, |ms|) - 1];
    }
  }

  /** Each lane is offered the messages submitted to it. */
  lemma {:induction false} SubmitAllMeaning(s: Sched, submissions: seq<Submission>, k: Lane)
    ensures Takes(s.lanes[k], SubmitAll(s, submissions).lanes[k], SubmittedTo(submissions, k))
    decreases |submissions|
  {
    if submissions == [] {
      assert s.lanes[k].queue + [] == s.lanes[k].queue;
    } else {
      var first, rest := submissions[0], SubmittedTo(submissions[1..], k);
      SubmitAllMeaning(Submit(s, first.lane, first.message), submissions[1..], k);
      if first.lane == k {
        TakesFirst(s.lanes[k], SubmitAll(s, submissions).lanes[k], first.message, rest);
      } else {
        assert [] + rest == rest;
      }
    }
  }

  /** The head of lane l is too old when l's turn comes. */
  ghost predicate HeadIsStale(s: Sched, l: Lane, o: Oracle)
    requires s.lanes[l].queue != []
  {
    var m := s.lanes[l].queue[0];
    (o.clock(l) - m.timestamp) * 1000.0 > m.maxAgeMs as real
  }

  /** Lane l's handler is called on its turn, and returns. */
  ghost predicate Returns(s: Sched, l: Lane, o: Oracle) {
    s.lanes[l].queue != [] && !HeadIsStale(s, l, o) && l in s.handlers && !o.handle(l, s.lanes[l].queue[0]).raises
  }

  /** Lane l's handler is called on its turn, and raises. */
  ghost predicate Fails(s: Sched, l: Lane, o: Oracle) {
    s.lanes[l].queue != [] && !HeadIsStale(s, l, o) && l in s.handlers && o.handle(l, s.lanes[l].queue[0]).raises
  }

  /** What lane l's turn submits: nothing unless its handler is called. */
  ghost function Submitted(s: Sched, l: Lane, o: Oracle): seq<Submission> {
    if Returns(s, l, o) || Fails(s, l, o) then o.handle(l, s.lanes[l].queue[0]).submissions else []
  }

  lemma {:induction false} SubmittingKeepsHandlers(s: Sched, submissions: seq<Submission>)
    ensures SubmitAll(s, submissions).handlers == s.handlers
    decreases |submissions|
  {
    if submissions != [] {
      SubmittingKeepsHandlers(Submit(s, submissions[0].lane, submissions[0].message), submissions[1..]);
    }
  }

  lemma TurnSubmits(s: Sched, l: Lane, o: Oracle)
    requires s.lanes[l].queue != []
    ensures var t := SubmitAll(Popped(s, l), Submitted(s, l, o));
            var d := Departure(s.lanes[l].queue[0], FateOf(s, l, s.lanes[l].queue[0], o), o.clock(l));
            Turn(s, l, o) == SetLane(t, l, Settle(t.lanes[l], d))
    ensures FateOf(s, l, s.lanes[l].queue[0], o)
         == if HeadIsStale(s, l, o) then Stale else if Returns(s, l, o) then Handled
            else if Fails(s, l, o) then Raised else Unhandled
  {
  }

  /** Another lane's state after lane l's turn is the one after its submissions. */
  lemma TurnElsewhere(s: Sched, l: Lane, o: Oracle, k: Lane)
    requires s.lanes[l].queue != [] && k != l
    ensures Popped(s, l).lanes[k] == s.lanes[k]
    ensures Turn(s, l, o).lanes[k] == SubmitAll(Popped(s, l), Submitted(s, l, o)).lanes[k]
  {
    TurnSubmits(s, l, o);
  }

  lemma TurnKeepsHandlers(s: Sched, l: Lane, o: Oracle)
    ensures Turn(s, l, o).handlers == s.handlers
  {
    if s.lanes[l].queue != [] {
      TurnSubmits(s, l, o);
      SubmittingKeepsHandlers(Popped(s, l), Submitted(s, l, o));
    }
  }

  /** What lane l's turn does to the other lanes: they take what its handler submitted. */
  lemma OthersOnTurn(s: Sched, l: Lane, o: Oracle, k: Lane)
    requires k != l
    ensures Takes(s.lanes[k], Turn(s, l, o).lanes[k], SubmittedTo(Submitted(s, l, o), k))
  {
    if s.lanes[l].queue == [] {
      SubmitAllMeaning(s, [], k);
    } else {
      TurnElsewhere(s, l, o, k);
      SubmitAllMeaning(Popped(s, l), Submitted(s, l, o), k);
    }
  }

  /**
   * Lane l's turn takes the head off its queue. The turn counts it as processed
   * exactly when the handler returned, and as dropped exactly when it was stale or
   * the handler raised; without a handler neither counter moves. The lane takes
   * what the handler submitted to it, as any other lane does.
   */
  lemma TurnMeaning(s: Sched, l: Lane, o: Oracle)
    requires s.lanes[l].queue != []
    ensures var q, r, ms := s.lanes[l], Turn(s, l, o).lanes[l], SubmittedTo(Submitted(s, l, o), l);
            var taken := q.(queue := q.queue[1..],
                            processed := q.processed + (if Returns(s, l, o) then 1 else 0),
                            dropped := q.dropped + (if HeadIsStale(s, l, o) || Fails(s, l, o) then 1 else 0));
            Takes(taken, r, ms)
  {
    TurnSubmits(s, l, o);
    SubmitAllMeaning(Popped(s, l), Submitted(s, l, o), l);
  }

  lemma TurnCounts(s: Sched, l: Lane, o: Oracle, k: Lane)
    ensures Turn(s, l, o).lanes[k].processed == s.lanes[k].processed + if k == l && Returns(s, l, o) then 1 else 0
  {
    if k != l {
      OthersOnTurn(s, l, o, k);
    } else if s.lanes[l].queue != [] {
      TurnMeaning(s, l, o);
    }
  }

  lemma FourTurns(s: Sched, o: Oracle)
    ensures Turns(s, LANES, o) == Turn(Turn(Turn(Turn(s, Cognitive, o), Orchestration, o), Substrate, o), Governance, o)
  {
    var a := Turn(s, Cognitive, o);
    var b := Turn(a, Orchestration, o);
    var c := Turn(b, Substrate, o);
    assert LANES[1..] == [Orchestration, Substrate, Governance];
    assert Turns(s, LANES, o) == Turns(a, [Orchestration, Substrate, Governance], o);
    assert [Orchestration, Substrate, Governance][1..] == [Substrate, Governance];
    assert Turns(a, [Orchestration, Substrate, Governance], o) == Turns(b, [Substrate, Governance], o);
    assert [Substrate, Governance][1..] == [Governance];
    assert Turns(b, [Substrate, Governance], o) == Turns(c, [Governance], o);
    assert [Governance][1..] == [];
  }

  /** The scheduler when lane l's turn comes: the lanes' turns in their fixed order. */
  ghost function BeforeTurn(s: Sched, l: Lane, o: Oracle): Sched {
    match l
    case Cognitive => s
    case Orchestration => Turn(s, Cognitive, o)
    case Substrate => Turn(Turn(s, Cognitive, o), Orchestration, o)
    case Governance => Turn(Turn(Turn(s, Cognitive, o), Orchestration, o), Substrate, o)
  }

  /** A cycle is the four turns in order; each lane's processed count grows by one exactly when its handler returned. */
  lemma CycleMeaning(s: Sched, o: Oracle, k: Lane)
    ensures Step(s, CycleOp(o)) == Turn(BeforeTurn(s, Governance, o), Governance, o)
    ensures Step(s, CycleOp(o)).lanes[k].processed
         == s.lanes[k].processed + if Returns(BeforeTurn(s, k, o), k, o) then 1 else 0
  {
    var a := Turn(s, Cognitive, o);
    var b := Turn(a, Orchestration, o);
    var c := Turn(b, Substrate, o);
    FourTurns(s, o);
    TurnCounts(s, Cognitive, o, k);
    TurnCounts(a, Orchestration, o, k);
    TurnCounts(b, Substrate, o, k);
    TurnCounts(c, Governance, o, k);
  }

  /** How many of the lanes' handlers are called in a cycle and return. */
  ghost function Returned(s: Sched, o: Oracle): nat {
    (if Returns(BeforeTurn(s, Cognitive, o), Cognitive, o) then 1 else 0)
    + (if Returns(BeforeTurn(s, Orchestration, o), Orchestration, o) then 1 else 0)
    + (if Returns(BeforeTurn(s, Substrate, o), Substrate, o) then 1 else 0)
    + (if Returns(BeforeTurn(s, Governance, o), Governance, o) then 1 else 0)
  }

  lemma CycleReturned(s: Sched, o: Oracle)
    ensures Processed(Step(s, CycleOp(o))) - Processed(s) == Returned(s, o)
  {
    CycleMeaning(s, o, Cognitive);
    CycleMeaning(s, o, Orchestration);
    CycleMeaning(s, o, Substrate);
    CycleMeaning(s, o, Governance);
  }

  // ----- implementation -----

  class DomainLane {
    const name: Lane
    const maxQueueSize: int
    var queue: seq<Message>
    var processedCount: nat
    var droppedCount: nat

    constructor (name: Lane, maxQueueSize: int := 10000)
      ensures this.name == name && this.maxQueueSize == maxQueueSize
      ensures queue == [] && processedCount == 0 && droppedCount == 0
    {
      this.name, this.maxQueueSize, queue, processedCount, droppedCount := name, maxQueueSize, [], 0, 0;
    }

    /** q is this lane; its history is whatever q says. */
    ghost predicate Shows(q: LaneState)
      reads this
    {
      q.maxSize == maxQueueSize && q.queue == queue && q.processed == processedCount && q.dropped == droppedCount
    }

    method Enqueue(m: Message, ghost q: LaneState) returns (ok: bool)
      requires Shows(q)
      modifies this
      ensures Shows(Offer(q, m)) && ok == (|q.queue| < q.maxSize)
      ensures queue == (if ok then old(queue) + [m] else old(queue))
      ensures droppedCount == old(droppedCount) + (if ok then 0 else 1) && processedCount == old(processedCount)
    {
      if |queue| >= maxQueueSize {
        droppedCount := droppedCount + 1;
        return false;
      }
      queue := queue + [m];
      return true;
    }

    /** None for an empty queue and for a stale message, which is dropped. */
    method Dequeue(now: real, ghost q: LaneState) returns (m: Option<Message>)
      requires Shows(q)
      modifies this
      ensures q.queue == [] ==> m == None && Shows(q)
      ensures q.queue != [] ==>
                var head, popped := q.queue[0], q.(queue := q.queue[1..]);
                if head.IsStale(now) then m == None && Shows(Settle(popped, Departure(head, Stale, now)))
                else m == Some(head) && Shows(popped)
      ensures old(queue) != [] ==>
                var head := old(queue)[0];
                var stale := (now - head.timestamp) * 1000.0 > head.maxAgeMs as real;
                && queue == old(queue)[1..] && m == (if stale then None else Some(head))
                && droppedCount == old(droppedCount) + (if stale then 1 else 0) && processedCount == old(processedCount)
    {
      if queue == [] { return None; }
      var head := queue[0];
      queue := queue[1..];
      if head.IsStale(now) {
        droppedCount := droppedCount + 1;
        return None;
      }
      return Some(head);
    }

    /** Counts a handler call that returned, or one that raised. */
    method CountCall(raised: bool, ghost q: LaneState, ghost d: Departure)
      requires Shows(q) && d.fate == if raised then Raised else Handled
      modifies `processedCount, `droppedCount
      ensures Shows(Settle(q, d))
      ensures droppedCount == old(droppedCount) + (if raised then 1 else 0)
      ensures processedCount == old(processedCount) + (if raised then 0 else 1)
    {
      if raised {
        droppedCount := droppedCount + 1;
      } else {
        processedCount := processedCount + 1;
      }
    }
  }

  class MultiDomainScheduler {
    const lanes: map<Lane, DomainLane>
    var handlers: set<Lane>

    constructor ()
      ensures Shows(Fresh(10000, {})) && fresh(lanes.Values)
    {
      var c := new DomainLane(Cognitive);
      var o := new DomainLane(Orchestration);
      var s := new DomainLane(Substrate);
      var g := new DomainLane(Governance);
      lanes := map[Cognitive := c, Orchestration := o, Substrate := s, Governance := g];
      handlers := {};
      new;
      forall l: Lane ensures l in lanes && lanes[l].name == l && lanes[l].Shows(LaneState(10000, [], 0, 0, 0, [], [])) {
        match l
        case Cognitive =>
        case Orchestration =>
        case Substrate =>
        case Governance =>
      }
    }

    /** s is this scheduler's lanes, each its own object, and its handlers. */
    ghost predicate Shows(s: Sched)
      reads this, lanes.Values
    {
      && s.handlers == handlers
      && (forall l: Lane :: l in lanes && lanes[l].name == l && lanes[l].Shows(s.lanes[l]))
    }

    method RegisterHandler(l: Lane, ghost s: Sched)
      requires Shows(s)
      modifies `handlers
      ensures Shows(Step(s, RegisterOp(l))) && handlers == old(handlers) + {l}
    {
      handlers := handlers + {l};
    }

    method SubmitMessage(l: Lane, m: Message, ghost s: Sched) returns (ok: bool)
      requires Shows(s)
      modifies lanes.Values
      ensures Shows(Submit(s, l, m)) && ok == (|s.lanes[l].queue| < s.lanes[l].maxSize)
    {
      var lane := lanes[l];
      ok := lane.Enqueue(m, s.lanes[l]);
    }

    /** A handler's effect on the scheduler. */
    method RunHandler(submissions: seq<Submission>, ghost s: Sched)
      requires Shows(s)
      modifies lanes.Values
      ensures Shows(SubmitAll(s, submissions))
    {
      ghost var t := s;
      for i := 0 to |submissions|
        invariant Shows(t) && SubmitAll(t, submissions[i..]) == SubmitAll(s, submissions)
      {
        assert submissions[i..][1..] == submissions[i + 1..];
        var ok := SubmitMessage(submissions[i].lane, submissions[i].message, t);
        t := Submit(t, submissions[i].lane, submissions[i].message);
      }
    }

    /** Dequeues from lane l. */
    method TakeMessage(l: Lane, now: real, ghost s: Sched) returns (m: Option<Message>)
      requires Shows(s)
      modifies lanes.Values
      ensures s.lanes[l].queue == [] ==> m == None && Shows(s)
      ensures s.lanes[l].queue != [] ==>
                var head, p := s.lanes[l].queue[0], Popped(s, l);
                if head.IsStale(now) then m == None &&
                    Shows(SetLane(p, l, Settle(p.lanes[l], Departure(head, Stale, now))))
                else m == Some(head) && Shows(p)
    {
      var lane := lanes[l];
      m := lane.Dequeue(now, s.lanes[l]);
    }

    method CountCall(l: Lane, raised: bool, ghost s: Sched, ghost d: Departure)
      requires Shows(s) && d.fate == if raised then Raised else Handled
      modifies lanes.Values
      ensures Shows(SetLane(s, l, Settle(s.lanes[l], d)))
    {
      var lane := lanes[l];
      lane.CountCall(raised, s.lanes[l], d);
    }

    /** handled says whether a handler was called and returned. */
    method TakeTurn(l: Lane, o: Oracle, ghost s: Sched) returns (handled: bool)
      requires Shows(s)
      modifies lanes.Values
      ensures Shows(Turn(s, l, o))
      ensures handled <==> s.lanes[l].queue != [] && FateOf(s, l, s.lanes[l].queue[0], o) == Handled
      ensures handled <==> Returns(s, l, o)
    {
      var msg := TakeMessage(l, o.clock(l), s);
      if s.lanes[l].queue != [] {
        TurnSettles(s, l, o);
      }
      if msg == None { return false; }
      if l !in handlers {
        UncountedShows(Popped(s, l), l, Departure(msg.value, Unhandled, o.clock(l)));
        return false;
      }
      handled := CallHandler(l, msg.value, o, s);
    }

    /** A message without a handler leaves no trace in the lane's own counters. */
    lemma UncountedShows(s: Sched, l: Lane, d: Departure)
      requires Shows(s) && d.fate == Unhandled
      ensures Shows(SetLane(s, l, Settle(s.lanes[l], d)))
    {
    }

    method CallHandler(l: Lane, m: Message, o: Oracle, ghost s: Sched) returns (handled: bool)
      requires s.lanes[l].queue != [] && m == s.lanes[l].queue[0] && Shows(Popped(s, l))
      requires !m.IsStale(o.clock(l)) && l in handlers
      modifies lanes.Values
      ensures Shows(Turn(s, l, o)) && handled == !o.handle(l, m).raises
    {
      var effect := o.handle(l, m);
      RunHandler(effect.submissions, Popped(s, l));
      ghost var t := SubmitAll(Popped(s, l), effect.submissions);
      ghost var d := Departure(m, if effect.raises then Raised else Handled, o.clock(l));
      CountCall(l, effect.raises, t, d);
      TurnSettles(s, l, o);
      assert Turn(s, l, o) == SetLane(t, l, Settle(t.lanes[l], d));
      return !effect.raises;
    }

    method Cycle(o: Oracle, ghost s: Sched) returns (processed: nat)
      requires Shows(s)
      modifies lanes.Values
      ensures Shows(Step(s, CycleOp(o))) && processed == Processed(Step(s, CycleOp(o))) - Processed(s)
      ensures processed == Returned(s, o)
    {
      processed := 0;
      ghost var t := s;
      for i := 0 to |LANES|
        invariant Shows(t) && Turns(t, LANES[i..], o) == Turns(s, LANES, o)
        invariant processed == Processed(t) - Processed(s)
      {
        assert LANES[i..][1..] == LANES[i + 1..];
        TurnProcesses(t, LANES[i], o);
        var handled := TakeTurn(LANES[i], o, t);
        if handled {
          processed := processed + 1;
        }
        t := Turn(t, LANES[i], o);
      }
      CycleReturned(s, o);
    }
  }
}
