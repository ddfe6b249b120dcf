# A verified model of the reasoning runtime's complete algorithms

The repository is a cognitive runtime in Python. Much of it is plumbing, but ten
files hold complete algorithms whose behaviour is not obvious from their text.
This project models those algorithms in Dafny, with the source's own branches
and edge cases, and proves what holds of them on every input, run or reachable
state.

| file | what it models |
|---|---|
| `Terms.dfy`, `Unification.dfy` | nested terms, one-pass substitutions, the unifier, and when its answer can be trusted |
| `Matching.dfy`, `LinearUnification.dfy`, `PatternUnification.dfy` | three classes of problems, recognisable before the call, on which the unifier is right |
| `UnificationLimits.dfy` | concrete inputs on which it is wrong or runs forever |
| `InferenceQuery.dfy` | querying a knowledge base of facts and rules |
| `ReasoningForest.dfy`, `ReasoningSubtrees.dfy`, `ReasoningDuality.dfy`, `ReasoningGrowth.dfy` | the tree of reasoning steps, its upward and downward walks, when they end and when they agree, for any additions and for fresh ids under present parents |
| `Trajectory.dfy` | the mutable tree, the live path and backtracking |
| `MessageQueue.dfy` | the retry queue |
| `InferenceCache.dfy` | the least-recently-used cache with expiry |
| `StateHistory.dfy` | the bounded history with rewind and forward, and validated updates |
| `Scheduler.dfy` | the multi-lane scheduler |
| `CrashRecovery.dfy` | the key-value store, the transaction log and crash recovery |
| `Pipeline.dfy` | the staged execution pipeline |
| `Wrappers.dfy`, `Sequences.dfy` | optional values, and sequences without repetitions |

Objects that the source updates in place are classes, and their methods are
proved against functions on values; the results about whole runs are lemmas
about those functions. What such a function means is also stated without it, on
the fields or on the calls made, in the method's own contract or in a lemma
beside it (`AnswersExactly`, `DrainOutcome`, `PushMeaning`, `TurnMeaning`,
`Replays`, `GetAgrees`, `ExecutedCalls`). A ghost argument such as `f`, `t`, `s` or `c` of a method
is that value; the class's `Shows` predicate ties it to the fields.

Conventions of the model:

- The unifier need not terminate. `Unification.Run` counts down fuel, and
  `MoreFuel` shows that any result other than `OutOfFuel` is the one result of
  the call, whatever the fuel. "Terminates" means that some fuel suffices.
- The order in which a dictionary's keys are visited follows insertion order in
  Python, which equality ignores. It is an oracle (`KeyOrder`) that may answer
  differently for every recursive call, so every theorem holds for every order.
- "theta solves S" means that `theta.apply` gives the same value for the two
  sides of every binding of S. No other notion than the code's own one-pass
  `apply` is used.
- Handlers, invariant checks and clocks are oracles: arbitrary functions of the
  call's position or of its arguments, which may raise. Scheduler handlers may
  also submit messages.

Where the code and its documentation differ, the model follows the code:

- `unify` is documented to find substitutions that make two terms identical. It
  can rebind a variable, and then succeeds on problems without a solution; it
  can also build cyclic bindings and recurse forever
  (`UnificationLimits.SucceedsOnUnsolvable`, `NeverTerminates`). Even an exact
  result may need to be applied twice (`NeedsSecondPass`). The returned value
  tells: it satisfies the starting bindings and makes the terms identical
  exactly when it is idempotent (`OnePassIffIdempotent`). If it holds no stale
  binding it is exact (`ExactUnlessStale`); a stale one may be exact or not. The
  ground, linear and pattern classes are conditions on the arguments under which
  nothing is overwritten. The pattern class is not symmetric: in
  `SucceedsOnUnsolvable` the second term is the linear one.
- `query` is documented to prove rule conditions. A condition is a `Fact`
  record, which no fact dictionary equals, so a rule with conditions never
  contributes an answer (`ConditionsNeverHold`).
- `get_path_to_step` stops at an empty parent id, because the empty string is
  falsy, while `add_step` and `get_subtree` honour it. With fresh ids under
  present parents the two walks always end, and agree exactly when no step has
  the empty id as its parent (`DualityCondition`). Without that discipline both
  can be endless (`OwnParentAdded`, `LateParentLoops`), and
  `WalksAgreeIffLinksAgree` says exactly when they end and agree.
- A cache with `max_size <= 0` raises on every `set` (`NoRoom`); a history with
  `max_history < 1` forgets what it was just given (`NoRoomDisagrees`).
- `recover_from_crash` is documented to restore a snapshot, which is always
  empty and never restored. `RecoveryCondition` says exactly when the replay
  alone is enough.
- The queue's `dequeue` is documented to return the highest priority message; it
  returns the oldest, as its own note announces (`UrgentComesLast`).
  `PriorityCondition` says exactly when priorities are respected all the same.
- A message dequeued by a lane without a handler is neither processed nor
  dropped (`Conservation`).

## Model

| member | source | states |
|---|---|---|
| Terms.ComposeBindings | inference/unification.py:29-34 | The copy-and-overwrite loop computes the composition, whatever order the bindings are visited in. |
| Terms.ComposeActs | inference/unification.py:19-34 | Applying a composition is applying the two substitutions in turn, on every nested term. |
| Terms.ComposeAssociative | inference/unification.py:29-34 | Composition is associative as a map of bindings. |
| Terms.ComposeIdentity | inference/unification.py:29-34 | The empty substitution is a two-sided identity of composition. |
| Terms.ApplyOccurs | inference/unification.py:19-27 | Which variables a term has after one application: the unbound ones it had, and those of the values of its bound ones. |
| Terms.SolutionAbsorbs | inference/unification.py:19-27 | A solution of a set of bindings cannot tell a term from those bindings applied to it. |
| Terms.IdempotentIffSelfSolution | inference/unification.py:19-27 | Applying bindings twice equals applying them once exactly when the bindings solve themselves. |
| Terms.OccursHeight | inference/unification.py:99-107 | A variable inside a larger term stays strictly lower than it under every substitution, which is what the occurs check relies on. |
| Unification.Unify | inference/unification.py:46-97 | The recursive method returns the outcome of the specification on every call that terminates. |
| Unification.UnifyAll | inference/unification.py:76-94 | The loop that threads the bindings through the values of two dictionaries or the items of two lists. |
| Unification.Deterministic | inference/unification.py:46-97 | A terminating call has one outcome, whatever fuel it is given. |
| Unification.Complete | inference/unification.py:46-107 | Under any starting bindings, if theta solves the problem, the call terminates within the height of the common instance, succeeds, and theta solves the result. |
| Unification.SolvableSucceeds | inference/unification.py:46-107 | Every solvable problem terminates, never answers None, and keeps every solution in its result, under every key order. |
| Unification.NoneMeansUnsolvable | inference/unification.py:62-97 | If the answer is None, no substitution solves the bindings and unifies the terms. |
| Unification.Sound | inference/unification.py:54-97 | In a successful run that never replaces a binding, other than a variable's binding to itself, only solutions of the problem solve the result. |
| Unification.Exact | inference/unification.py:54-97 | For such a run, from any bindings, the solutions of the result are exactly the solutions of the starting bindings that unify the two terms. |
| Unification.StaleStays | inference/unification.py:62-94 | A step that overwrites leaves a stale binding, one that leads to a variable bound to something else, and no later step removes the last of them. |
| Unification.ExactUnlessStale | inference/unification.py:46-97 | Any answer without a stale binding has exactly the problem's solutions, a condition on the returned value alone. |
| Unification.OnePassIffIdempotent | inference/unification.py:46-97 | For every successful call from any bindings, the answer satisfies those bindings and makes the terms equal in one application exactly when it is idempotent. |
| Unification.IdempotentIsExact | inference/unification.py:46-97 | An idempotent answer has exactly the problem's solutions. |
| Matching.GroundRun | inference/unification.py:54-97 | With one side ground and ground-valued bindings, nothing is rebound, every binding stays ground, and the height of the ground side bounds the recursion. |
| Matching.LeastMatcher | inference/unification.py:46-97 | Such a call terminates, succeeds exactly when some extension of the bindings maps the open term onto the ground one in one application, and returns the least such extension. |
| Matching.MatchingIgnoresKeyOrder | inference/unification.py:81-85 | Its answer is the same for any two orders of visiting dictionary keys. |
| LinearUnification.LinearRun | inference/unification.py:46-97 | When no variable occurs twice and none is bound already, a run terminates within the height of the first term, overwrites nothing, and makes the terms equal in one application when it succeeds. |
| LinearUnification.LinearSucceeds | inference/unification.py:46-107 | A linear problem whose terms have any unifier succeeds, even one that ignores the starting bindings. |
| LinearUnification.LinearOnePass | inference/unification.py:46-107 | A linear problem terminates, succeeds exactly when a unifier exists, and then one application of the result makes the terms equal and its solutions are exactly the problem's. The added bindings alone unify the terms and are idempotent. |
| PatternUnification.SolvedByKeys | inference/unification.py:19-27 | Bindings that have a solution have one that binds no other variables. |
| PatternUnification.PatternRun | inference/unification.py:46-97 | When the first term is linear, its variables are fresh, and no binding leads from a variable of the second term or of a value to another variable, a run terminates within the first term's height and overwrites nothing. |
| PatternUnification.PatternExact | inference/unification.py:46-107 | Such a problem terminates, and an answer has exactly the problem's solutions. The problem has a solution exactly when the call succeeds and the starting bindings have one. |
| PatternUnification.PatternFromEmpty | inference/unification.py:46-107 | From the empty substitution, when the first term is linear and shares no variable with the second, the call terminates, succeeds exactly when the terms have a unifier, and its answer's solutions are exactly their unifiers. |
| UnificationLimits.SucceedsOnUnsolvable | inference/unification.py:63-66 | Three occurrences of one variable against a variable and two distinct atoms succeed, although no substitution makes them equal. |
| UnificationLimits.NeedsSecondPass | inference/unification.py:19-27 | A run that changes no existing binding can still need two applications of its result. |
| UnificationLimits.ExactByAccident | inference/unification.py:62-94 | A run that overwrites a binding and answers with a stale one can still have exactly the problem's solutions. |
| UnificationLimits.CyclicDiverges | inference/unification.py:54-94 | From two cyclic bindings the recursion never ends, whatever the fuel. |
| UnificationLimits.NeverTerminates | inference/unification.py:46-97 | A concrete pair of lists reaches such bindings from an empty substitution. |
| InferenceQuery.EnhancedInferenceEngine.Query | inference/unification.py:155-194 | Over ground facts and ground unconditional conclusions there is one answer for each fact that some substitution maps the goal onto, in stored order, and it is the least such substitution; then one for each such conclusion of a rule without conditions, in stored order, and nothing else. |
| InferenceQuery.EnhancedInferenceEngine.ProveGoal | inference/unification.py:164-194 | Exactly those answers are appended to the shared list of solutions, and nothing already there changes. |
| InferenceQuery.EnhancedInferenceEngine.ProveConditions | inference/unification.py:196-211 | The incoming substitution is appended when there are no conditions, and nothing is when there are. |
| InferenceQuery.ConditionsNeverHold | inference/unification.py:206-211 | Querying a Fact record instead of a dictionary settles with no answers, on every knowledge base. |
| InferenceQuery.QueryExact | inference/unification.py:155-194 | Over ground facts and ground unconditional conclusions, in a query whose unifier calls end, each target contributes the least substitution that maps the goal onto it in one application, and contributes nothing exactly when there is none. |
| InferenceQuery.GroundQueryTerminates | inference/unification.py:155-194 | A query against ground facts and rules with ground conclusions terminates for every goal, whatever the rules' conditions. |
| InferenceQuery.GroundQueryExact | inference/unification.py:155-194 | Such a query terminates and answers exactly, with nothing assumed of its unifier calls. |
| InferenceQuery.WildcardAnswer | inference/unification.py:171-175 | The least substitution that turns a goal of three variables into a ground fact binds them to the fact's own subject, predicate and object. |
| ReasoningForest.BuiltIsClosed | cognitive/sim_trajectory.py:52-65 | After any additions every listed child is present. |
| ReasoningForest.PathIsChain | cognitive/sim_trajectory.py:67-84 | When the upward walk ends, its path ends in the step, starts where there is no parent to go to, repeats nothing, and each element is the parent of the next. |
| ReasoningForest.PathStep | cognitive/sim_trajectory.py:76-82 | The walk from a step ends exactly when the one from its parent does; an absent or empty parent ends it. |
| ReasoningForest.PathsStopIffClimbs | cognitive/sim_trajectory.py:67-84 | On any forest, all upward walks end exactly when the present parents admit a depth that decreases at every move. |
| ReasoningForest.LateParentLoops | cognitive/sim_trajectory.py:56-84 | On any forest, a step added under a parent that is added later, below it, makes both upward walks endless, fresh ids or not. |
| ReasoningSubtrees.ListedFrom | cognitive/sim_trajectory.py:86-102 | When the downward walk ends, an id is listed exactly when it is the start or a child of a listed id. |
| ReasoningSubtrees.SubtreeStopsIffFalls | cognitive/sim_trajectory.py:86-102 | On any forest, the downward walk from a step ends exactly when the ids below it can be ranked so that children rank lower. |
| ReasoningSubtrees.OwnParentAdded | cognitive/sim_trajectory.py:56-102 | On any forest, a step added as its own parent makes both walks from it endless. |
| ReasoningDuality.SeenIsListed | cognitive/sim_trajectory.py:86-102 | On agreeing links, what the walk has visited or queued is always duplicate-free, present and below the start. |
| ReasoningDuality.ParentListsIt | cognitive/sim_trajectory.py:56-102 | If the walks agree, a step whose parent is present is listed among that parent's children. |
| ReasoningDuality.ChildNamesParent | cognitive/sim_trajectory.py:56-102 | If the walks agree, a listed child names the step that lists it as its parent, and is listed once. |
| ReasoningDuality.WalksAgreeIffLinksAgree | cognitive/sim_trajectory.py:56-102 | For every sequence of additions: both walks end everywhere, list nothing twice, and y is below x exactly when x is above y, if and only if parents and children agree and the parents admit a depth. |
| ReasoningGrowth.MovedStepDisagrees | cognitive/sim_trajectory.py:56-102 | Adding an id again under another parent leaves it listed by the former one: no parent is empty, every parent lists its children and no link forms a cycle, yet the walks disagree. |
| ReasoningGrowth.AddNodeGrows | cognitive/sim_trajectory.py:56-65 | Adding a fresh id under a present parent, or as a root, keeps both directions of linking consistent and the parent chains finite. |
| ReasoningGrowth.SubtreeIsBelow | cognitive/sim_trajectory.py:86-102 | For fresh ids under present parents, the downward walk ends and lists every descendant, each once, and nothing else. |
| ReasoningGrowth.SubtreeByLevel | cognitive/sim_trajectory.py:86-102 | There it is breadth-first: no step is listed after a deeper one. |
| ReasoningGrowth.PathIsBelow | cognitive/sim_trajectory.py:67-84 | There the upward walk ends and reaches exactly the ancestors that the step with the empty id does not cut off. |
| ReasoningGrowth.DualityCondition | cognitive/sim_trajectory.py:56-102 | There both walks end everywhere, subtrees repeat nothing, and every path starts at a root or below the empty id. The walks disagree on exactly the pairs with the step with the empty id between them, and so agree everywhere if and only if no step has the empty id as its parent. |
| ReasoningGrowth.EmptyIdBreaksDuality | cognitive/sim_trajectory.py:76-84 | On any forest, a child of the step with the empty id is in its subtree, but that step is not on the child's path. |
| Trajectory.ExecutionTree.AddStep | cognitive/sim_trajectory.py:56-65 | The in-place update of the tree, its roots and the parent's children, for any id and parent. |
| Trajectory.ExecutionTree.GetPathToStep | cognitive/sim_trajectory.py:67-84 | Whenever the upward walk ends at all, the loop returns its path; an unknown id gives an empty one. |
| Trajectory.ExecutionTree.GetSubtree | cognitive/sim_trajectory.py:86-102 | Whenever the downward walk ends at all, the queue loop returns the present ids it lists, in its order; an unknown id gives nothing. |
| Trajectory.ReasoningTrajectory.BeginStep | cognitive/sim_trajectory.py:116-137 | The new step is executing, is added to the tree, and ends the live path. |
| Trajectory.ReasoningTrajectory.CompleteStep | cognitive/sim_trajectory.py:139-153 | The step failed when the error is not empty, and succeeded without one or with an empty one; output and error are stored; no other step changes, and an unknown id changes nothing. |
| Trajectory.ReasoningTrajectory.Backtrack | cognitive/sim_trajectory.py:155-171 | Refused exactly when there are too few live steps; otherwise the last ones are marked and dropped and the current step is the last left. |
| Trajectory.BacktrackMeaning | cognitive/sim_trajectory.py:155-171 | The last steps leave the live path and are marked backtracked, every other step keeps its status, and the current step is the last one left. |
| Trajectory.PopsBacktracks | cognitive/sim_trajectory.py:163-170 | Marking and dropping one step at a time equals marking the whole dropped suffix at once. |
| Trajectory.StepIdPosition | cognitive/sim_trajectory.py:216 | Two generated ids are equal only if they were generated at the same position of the path. |
| Trajectory.RunIsCoherent | cognitive/sim_trajectory.py:116-171 | After every run of recording, completing and backtracking the live ids are distinct, resolve to steps not marked backtracked, and end in the current step, even when ids of backtracked steps are reused. |
| Trajectory.BacktrackUndoesRecords | cognitive/sim_trajectory.py:155-222 | Recording k steps and backtracking k restores the live path, the current step and the status of every live step. |
| Trajectory.SIMTrajectory.RecordStep | cognitive/sim_trajectory.py:210-222 | The live path gains an executing step, the current one, whose id names its type and position; the depth flag is raised once the path is longer than the limit. |
| Trajectory.SIMTrajectory.GetReasoningPath | cognitive/sim_trajectory.py:233-241 | After any run every lookup succeeds, and the path lists the live ids with their types. |
| MessageQueues.MessageQueue.Enqueue | messaging/queue.py:46-56 | A message is appended exactly when there is room. |
| MessageQueues.MessageQueue.ProcessAll | messaging/queue.py:74-104 | The loop terminates and empties the queue. The count returned, by which the counter also grows, is the number of calls that did not raise; every call is of a message with a handler, does what the handler does, and notes the message's retry count, one more for each of its calls so far that raised. |
| MessageQueues.OneUsesWork | messaging/queue.py:78-102 | One iteration strictly decreases the sum of max(1, max_retries - retry_count) over the queue. |
| MessageQueues.DrainOutcome | messaging/queue.py:74-104 | Read from the calls alone: each time a message with a handler was queued ends with one call that returns, or that raises with no retry left. A message is processed as often as its handler returned, and ends without a call exactly when it has no handler. |
| MessageQueues.RetriesNoted | messaging/queue.py:98-102 | The retry count that a call notes is the message's initial one plus its calls so far that raised. |
| MessageQueues.DrainConserves | messaging/queue.py:74-104 | Every message ends, as often as it was queued, in exactly one of processed, exhausted, without handler and refused; retry counts grow by its failed calls; and its calls stay within its queued budget. |
| MessageQueues.RetryNeverRefused | messaging/queue.py:46-56 | Draining never refuses a retry for capacity. |
| MessageQueues.QueuedOnce | messaging/queue.py:94-102 | The budget of a message queued once is max(1, max_retries - retry_count) calls. |
| MessageQueues.DrainInRounds | messaging/queue.py:74-104 | The handler calls are a concatenation of rounds, no more of them than the largest budget: the first calls the queued messages that have a handler, in order, and each later one calls, in order, those of the previous round that failed with budget left. |
| MessageQueues.PriorityCondition | messaging/queue.py:58-68 | The handlers are called by priority exactly when the queued messages that have one are in that order already and the first round retries only messages of the lowest priority. |
| MessageQueues.UrgentComesLast | messaging/queue.py:58-68 | When the more urgent of two messages with handlers is queued last, the calls are not in order of priority, whatever the handlers do. |
| InferenceCaching.InferenceCache.Get | inference/caching.py:44-66 | Hits exactly when the key is cached and no older than its own time to live, and then moves it to the end and counts a hit; otherwise the key is not cached afterwards and a miss is counted. |
| InferenceCaching.InferenceCache.Set | inference/caching.py:68-86 | Insertion evicts the oldest entry of a full cache even when it overwrites, and stores the result with the call's time to live, or the cache's own when that is absent or zero; an overwrite keeps its place; without room it raises and changes nothing. |
| InferenceCaching.RunIsLru | inference/caching.py:44-90 | On every run the size stays within the bound and the order is strictly increasing in last refresh. |
| InferenceCaching.EvictionIsLru | inference/caching.py:75-76 | A key is evicted only after at least max_size - 1 other keys were refreshed since it was. |
| InferenceCaching.RefreshReason | inference/caching.py:44-86 | A key becomes the most recent one exactly by a lookup that hits it or by a set that does not overwrite it, and then stands last in the order. |
| InferenceCaching.RunHolds | inference/caching.py:44-90 | On every run a key is cached exactly when it was set since the last clear and not removed since, with the entry of its last set. |
| InferenceCaching.GetAgrees | inference/caching.py:26-86 | A lookup hits exactly when the last set since the last clear still stands and is no older than the time to live of that set, and returns that set's result; after any other lookup the key is not cached. |
| InferenceCaching.RemovalReason | inference/caching.py:55-76 | A key is removed only as the oldest of a full cache, or by a lookup that finds its last set older than its time to live. |
| InferenceCaching.NoRoom | inference/caching.py:75-76 | With max_size below one every set raises and the cache stays empty. |
| InferenceCaching.CountersAddUp | inference/caching.py:44-66 | On every run hits and misses add up to the number of lookups. |
| StateHistory.StateTrajectory.Push | cognitive/sim_state.py:74-90 | With room for one state, the pushed snapshot becomes the current and the last one, with the number of states kept as its version; before it stand the states up to the former current one, less the oldest when over the limit, and no future state. |
| StateHistory.PushMeaning | cognitive/sim_state.py:74-96 | After a push into a history with room the pushed state is current, the states before it are those up to the former current one, less the oldest when over the limit, and going forward is refused. |
| StateHistory.PushUndone | cognitive/sim_state.py:74-124 | Rewinding a push that evicts nothing restores the former current state, and going forward again the pushed one. |
| StateHistory.StateTrajectory.Rewind | cognitive/sim_state.py:104-113 | The index moves back, or nothing changes and the answer is False. |
| StateHistory.StateTrajectory.Forward | cognitive/sim_state.py:115-124 | The index moves forward, or nothing changes and the answer is False. |
| StateHistory.RewindMeaning | cognitive/sim_state.py:104-124 | Rewinding succeeds exactly when there are as many earlier states, makes the one that many places back current, and going forward undoes it. |
| StateHistory.ForwardMeaning | cognitive/sim_state.py:104-124 | Going forward succeeds exactly when there are as many later states, makes the one that many places ahead current, and rewinding undoes it. |
| StateHistory.StepSimulates | cognitive/sim_state.py:74-124 | Each operation agrees with unbounded undo and redo, answer included, except a rewind into the evicted prefix, which is refused. |
| StateHistory.RunSimulates | cognitive/sim_state.py:74-124 | Every reachable history is the unbounded one, run on the operations not so refused, with a prefix removed. |
| StateHistory.EvictedGrows | cognitive/sim_state.py:84-88 | That prefix never shrinks along a run. |
| StateHistory.RunCurrentAgrees | cognitive/sim_state.py:92-96 | With room for one state, both have the same current state after every run. |
| StateHistory.NoRoomDisagrees | cognitive/sim_state.py:84-88 | Without room for one, they differ after a single push. |
| StateHistory.NoEvictionNoDifference | cognitive/sim_state.py:74-124 | Until the first eviction the bounded history is the unbounded one. |
| StateHistory.RunVersions | cognitive/sim_state.py:74-124 | On every run a version is at least its state's position and exceeds it by no more than the evictions so far; so until the first eviction versions are positions. |
| StateHistory.StepCounts | cognitive/sim_state.py:104-124 | The exact bounds within which a possibly negative step count keeps the index in range. |
| StateHistory.StateValidator.Validate | cognitive/sim_state.py:50-63 | The registered checks decide the verdict in order. |
| StateHistory.VerdictMeaning | cognitive/sim_state.py:50-63 | Valid exactly when all checks hold; otherwise the first that does not hold decides between inconsistent, when it fails, and unknown, when it raises. |
| StateHistory.SIMState.Update | cognitive/sim_state.py:160-189 | Succeeds exactly when there is a current state and all checks hold of the merged data, which then becomes the current state; otherwise nothing changes. |
| Scheduling.DomainLane.Enqueue | kernel/scheduler.py:57-65 | A message is appended when there is room and counted as dropped when not. |
| Scheduling.DomainLane.Dequeue | kernel/scheduler.py:67-81 | The first message leaves the lane; one older than its limit is dropped, counted and not handed out. |
| Scheduling.MultiDomainScheduler.SubmitMessage | kernel/scheduler.py:123-128 | One lane changes, as offering the message to it does; the others do not. |
| Scheduling.SubmitAllMeaning | kernel/scheduler.py:57-65 | Of any sequence of submissions, each lane takes those addressed to it, in order, while there is room, and counts the rest as dropped. |
| Scheduling.TurnMeaning | kernel/scheduler.py:140-160 | A lane's turn takes its head off, counts it as processed exactly when its handler was called and returned, and as dropped exactly when it was too old or the handler raised; without a handler neither. The lane takes what the handler submitted to it. |
| Scheduling.OthersOnTurn | kernel/scheduler.py:140-160 | A lane's turn changes another lane only by what the handler submitted to it. |
| Scheduling.MultiDomainScheduler.Cycle | kernel/scheduler.py:130-166 | One turn for each lane, in order, with handlers that may raise and may submit to any lane; the number returned is that of the lanes whose handler was called on their turn and did not raise. |
| Scheduling.CycleMeaning | kernel/scheduler.py:130-166 | A cycle adds one to a lane's processed count exactly when that lane's handler was called on its turn and returned. |
| Scheduling.CycleReturned | kernel/scheduler.py:130-166 | The processed counts together grow by the number of lanes whose handler was called and returned. |
| Scheduling.RunKeeps | kernel/scheduler.py:57-166 | On every run a lane's departures are its accepted messages in order, stale exactly when found stale, with exact counters; each cycle takes at most one message. |
| Scheduling.Conservation | kernel/scheduler.py:57-166 | Submissions equal queued, processed and dropped messages together exactly when none was dequeued without a handler. |
| Scheduling.RunConserves | kernel/scheduler.py:123-166 | For a lane with a handler, submissions are conserved at every point of every run. |
| Scheduling.OnePerCycle | kernel/scheduler.py:130-166 | While its messages last, each cycle takes exactly one message off a lane, whatever is submitted meanwhile. |
| Scheduling.LeavesOnItsCycle | kernel/scheduler.py:67-81 | A message at position p is c places nearer after c cycles and leaves on exactly the (p+1)-th. |
| Scheduling.HandedInOrder | kernel/scheduler.py:140-160 | The messages handed to the handler are a subsequence, in order, of those accepted, and none was stale. |
| Recovery.KVStore.Put | substrate/state.py:72-82 | The key is overwritten, and no other; the version is the number of keys before. |
| Recovery.TransactionLog.Append | substrate/sync.py:145-154 | The log grows by one entry. |
| Recovery.TransactionLog.Replay | substrate/sync.py:156-169 | Raises, before any write, exactly when a negative index is out of range. Otherwise every key written from that index on holds the value of its last write and any other key is as before; deletes are skipped, and a negative index in range replays the whole log. |
| Recovery.ReplayedReplays | substrate/sync.py:156-169 | After a replay every key written in the range has the value of its last write there, and any other key the value it had before. |
| Recovery.CrashRecovery.CreateRecoveryPoint | substrate/recovery.py:33-48 | The point holds the length of the log and an empty snapshot. |
| Recovery.CrashRecovery.RecoverFromCrash | substrate/recovery.py:50-72 | Without a recovery point nothing changes. With one, every key written after it holds the value of its last write, and any other what the crash left; with one at or before the crash point, every key holds the value of its last write in the whole log. |
| Recovery.ReplayedKey | substrate/sync.py:160-167 | A key written in a range of the log forgets the store it started from; any other keeps its value. |
| Recovery.NegativeReplaysAll | substrate/sync.py:160-167 | Replaying from a negative index in range has the effect of replaying the whole log. |
| Recovery.RecoveryCondition | substrate/recovery.py:50-72 | Recovery restores the whole log exactly when every key not written after the recovery point had the same value at the crash as at the recovery point. |
| Recovery.LaterCrashRecovers | substrate/recovery.py:50-72 | From any crash point at or after the recovery point, recovery gives every key its value after the whole log. |
| Recovery.EarlierCrashLosesWrites | substrate/recovery.py:74-86 | A store that lags behind the recovery point loses every new key that was only written in between, because the snapshot is empty. |
| Recovery.RunConsistent | substrate/recovery.py:33-72 | On every run with any number of crashes and recoveries, in which points are created when all entries have reached the store and no crash loses a write older than the point, the store holds a known stretch of the log that includes the point. |
| Recovery.RunRecovers | substrate/recovery.py:33-72 | After any such run, recovering leaves the store with everything that was ever logged. |
| Pipelines.PipelineStageHandler.ExecuteAll | tec/pipeline.py:56-65 | The handlers of a stage are called up to and including the first that is falsy or raises, and the answer says whether there was none. |
| Pipelines.MadeStopsAtFailure | tec/pipeline.py:56-65 | All calls but the last made are truthy, and the last is too exactly when all were made. |
| Pipelines.ExecutionPipeline.SubmitPlan | tec/pipeline.py:80-87 | A fresh pending execution replaces any other of the same id. |
| Pipelines.ExecutionPipeline.ExecutePlan | tec/pipeline.py:89-122 | An unknown plan is refused without a call; a known one changes its own execution only, makes the specified calls, and never stays executing or failed. |
| Pipelines.ExecutionPipeline.Undo | tec/pipeline.py:124-130 | The execution is marked rolled back at the stage where it failed, and the rollback handlers are called up to the first failure. |
| Pipelines.ExecutedOutcome | tec/pipeline.py:89-130 | The calls are those of the five stages, flattened, up to and including the first that is not truthy, then rollback calls only after a failure. The plan succeeds exactly when all are truthy, and otherwise ends rolled back at the stage of the last forward call. |
| Pipelines.ExecutedCalls | tec/pipeline.py:89-130 | A run calls the registered handlers in the order PLAN, VALIDATE, AUTHORIZE, EXECUTE, VERIFY, and within a stage in that of registration, up to the first that is not truthy. It succeeds exactly when all calls are truthy, and then every handler of the five stages was called and none of rollback; otherwise the rollback handlers are called in the same manner. |
| Pipelines.ExecuteNeedsAuthorize | tec/pipeline.py:101-119 | No EXECUTE handler is called unless every AUTHORIZE handler was called before it in the same run and answered true. |

## Left out

- Unification.Exact: stated for runs that overwrite nothing, and `ExactUnlessStale` for answers without a stale binding. An answer may be exact beyond both (`UnificationLimits.ExactByAccident`), so neither has a converse.
- Unification.Unify: takes a ghost fuel that suffices, because the source need not terminate. Python's recursion limit is not modelled.
- InferenceQuery.QueryExact: conclusions of rules without conditions must be ground. With variables in them the unifier's general limits apply.
- Trajectory.ExecutionTree.GetPathToStep: its loop is modelled where it ends; where it does not is `PathsStopIffClimbs`. The same goes for GetSubtree and `SubtreeStopsIffFalls`.
- Pipelines.ExecutionPipeline.ExecutePlan: handlers neither register handlers nor submit or execute plans while they run, and the shared context dictionary is not modelled.
- MessageQueues.MessageQueue.ProcessAll: handlers and the event publisher do not touch the queue, and priority is stored but plays no part, as in the source.
- Recovery.CrashRecovery.RecoverFromCrash: its exception branch is not modelled, since a recovery point's index is never out of range and the store does not raise.
- Hash values: query keys are abstract and distinct for distinct queries, and the snapshot hash is not modelled.
- Python's `1 == True`, floating-point rounding of timestamps and the aliasing of nested dictionaries: scalars of different kinds differ, times are reals, and values are copied.
- Timestamps, durations, statistics, logging, `explain`, `previous`, `get_history`, `size` and `stats`: bookkeeping that no result depends on.
- `VariableBinder` (inference/unification.py:110-142): its bindings are never read by the query.
- Forward chaining, confidence, semantic caching, policy checks, deadlock and coherence checks: stubs, or one-line arithmetic.
- Synchronisation between durable objects and the key-value store (substrate/sync.py:37-133): it uses fields the state classes do not have.
- The scheduler's timing loop and coordinator, the web and worker layers, routing, identity and tracing: input and output only.
