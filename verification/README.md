# Agents Office: verified models of its hard parts

Agents Office runs teams of language-model agents. These Dafny files model the algorithms and state
machines its promises rest on and prove what they promise, for all inputs and over whole runs:

* **Routes** (`layout.dfy`): breadth-first search over the office grid, the grid itself, the cache of
  routes and the simulation that consumes them.
* **Topologies** (`blackboard.dfy`, `custom_graph.dfy`): the planner's task list in dependency order with
  its fallback, the interpreter of custom graphs and the validator that runs when a graph is saved.
* **A run** (`engine.dfy`, `turns.dfy`, `budget.dfy`, `run_state.dfy`): an agent's turn with its tool loop
  under the budget, for a model, tools and a clock that may do anything, stopped at any `await`
  (`Engines.World`); the conversation, the step records, the tool audit, the artifact versions.
* **Money** (`pricing.dfy`, `settlement.dfy`, `billing.dfy`, `ledger_runs.dfy`): from the cost of a call to
  the debit, and the append-only ledger under concurrent requests.
* **Limiters** (`sliding_window.dfy`, `slots.dfy`): the two Redis scripts as step systems over time.
* **Sessions and streams** (`refresh_tokens.dfy`, `events.dfy`, `sse.dfy`): refresh-token families, the
  capped event history with resume, the reader of the event stream.
* **Text** (`openai_compat.dfy`, `tool_deltas.dfy`, `transcript.dfy`, `sprites.dfy`): mapping conversations
  to Chat Completions, assembling streamed tool calls, compacting the board for a prompt, compiling
  string art to runs.

`common.dfy` holds the few definitions they share. `dafny verify dfyconfig.toml` checks everything.

Code that changes state is modelled by classes and loops (`FloorPlan`, `Bucket`, `RateLimiter`, `Engine`,
`Ledger`, `Sessions`, `EventEmitter`, `TokenBuffer`, `StreamReader`, …), each method tied to a function of
the old state; what must hold over runs is proved about those functions. Lua scripts, HTTP requests and
`emit` are one step each. Constants (grid size, limits, caps, lifetimes) are parameters.

## What the proofs found

Where the code does less than its comments or documents say, the code is modelled as it is, and the
condition under which it does what they say is proved exactly.

* The route cache hands out its own array and the simulation shifts tiles off it
  (web/src/lib/office/sim.ts:456). Over any calls and steps an answer is right exactly when the route was
  never asked for, there is nowhere to go, or no step was taken on it: `AnswerAfter`. After a whole walk
  the second trip stands still: `SecondTrip`.
* `notes["exhausted"]` of a custom graph is set too when a router answers "end" on the last hop:
  `EndOnTheLastHopIsNoted`; `RunRecords` says exactly when it is set.
* `reconcile` sums the ledger up before it takes the lock (core/billing.py:206-214). "The two can never
  drift" holds all through a run exactly when what was posted in between adds up to nothing each
  time: `ExactIffUndisturbed`; any sound ledger can be made to drift: `StaleSumDrifts`.
* `retry_after_seconds` is honest exactly when the limit is positive: `ResetIsHonest`.
* A stream delivers everything exactly when the resume is within the history and, unless the replay
  ends the stream, nothing is published between the replay and the subscription; one that makes up its
  end, exactly when nothing more was published, or just that end: `DeliversIff`. What is lost may be
  the end of the run, which leaves no hole in the numbers: `GaplessIff`.
* Made-up tool call ids begin anew with every reply, so two replies of a turn without ids share them:
  `SameIdIff`, `IdsOfRequest`.
* The reader of the event stream knows LF only; text whose lines end in CR LF, which section 9.2.5 of the
  HTML Living Standard permits as well, never yields a frame: `CrlfYieldsNothing`. Which line ends the
  server's library writes is not part of this model.
* A shutdown in the middle of a run is raised out of the transaction, which then commits neither the
  run row nor the debit (core/db.py:36-44), although the comment at core/runner.py:233-236 says that
  billing is still settled. The debit stays exactly when no shutdown ended the topology and all that
  comes before and after it, up to the commit, succeeds: `ExecuteRun`.
* A timeout may stop a turn anywhere. Tools of its last batch may then have run, and written, without
  an audit row, and its output may be on the board without a record; nothing before the last reply is
  missing: `RunIsBounded`, `NumbersHaveNoGap`, `CallAgent`.
* The calls of a turn that failed are spent but not billed; the run row shows both amounts:
  `CostIsConserved`, `ExecuteRun`.
* A transcript may say that earlier contributions were omitted when none was; `RemarkForNothing` says
  exactly when.

## Model

| member | source | states |
|---|---|---|
| `Layout.FloorPlan.FindPath` | web/src/lib/office/layout.ts:191-248 | A first call returns a shortest route, or nothing when the target is unreachable or the start; a later one hands out the cached array itself. The answer is right exactly when start and target are the same, the route was not cached, there is none, or no tile was taken off the cached array |
| `Layout.FreshSearch` | web/src/lib/office/layout.ts:197-247 | The search finds a route exactly when one exists, along cardinal moves onto walkable tiles, and no walk is shorter |
| `Layout.WalkIsSeen` | web/src/lib/office/layout.ts:205-230 | The end of every walk short of what is still queued has been seen, no further out than the walk is long |
| `Layout.Rebuild` | web/src/lib/office/layout.ts:239-247 | Following the recorded predecessors back gives a walk whose length is the distance of the goal |
| `Layout.EmptyAnswer` | web/src/lib/office/layout.ts:192-237 | The answer is empty exactly when start and target are the same or the target is unreachable |
| `Layout.ShiftedIsWrong` | web/src/lib/office/sim.ts:456 | A route with any tiles taken off is no longer an answer |
| `Layout.FloorPlan.Walk` | web/src/lib/office/sim.ts:410-460 | A character visits the tiles of the array it was given, in order, up to where it stops; exactly these are gone from the cached array |
| `Layout.FloorPlan.SecondTrip` | web/src/lib/office/sim.ts:388-460 | Two trips on one route: what the second is handed is the rest of the first, nothing after a whole walk, and right only if no step was taken or there is no route |
| `Layout.FloorPlan.AnswerAfter` | web/src/lib/office/layout.ts:191-195 | After any sequence of requests and steps by any number of characters the next answer is right exactly when start and target are the same, the route was never asked for, there is none, or no step was taken on it |
| `Layout.BuildGrid` | web/src/lib/office/layout.ts:160-170 | The stored cells say of every tile, on the grid or off it, whether it is on the grid and in no blocked rectangle |
| `Blackboard.NormaliseTasks` | core/orchestration/presets.py:303-334 | The result holds the first usable item of each id in the order of the reply; each task has the id and title its item gives or the defaults, the worker it names or else the first, and depends on exactly the other kept tasks its item names |
| `Blackboard.ScheduleIsOrderly` | core/orchestration/presets.py:277-298 | The schedule of a plan runs every task exactly once, after all its dependencies unless nothing at all was ready |
| `Blackboard.ScheduleGoesInRounds` | core/orchestration/presets.py:280-298 | The schedule of a plan goes in rounds: each is all tasks that are ready by then, in declared order, or when none is, the first that waits |
| `Blackboard.RunTasks` | core/orchestration/presets.py:277-298 | The loops end and work off the schedule in order, to the end or as far as the engine lets them |
| `Blackboard.StuckLeadsToCycle` | core/orchestration/presets.py:281-286 | When no pending task is ready, each of them depends in the end on a cycle |
| `Blackboard.ForcedOnlyOnCycles` | core/orchestration/presets.py:282-286 | The fallback fires only when every pending task leads to a cycle |
| `Blackboard.PlanFallsBackIffCyclic` | core/orchestration/presets.py:280-298 | The fallback fires in the schedule of a plan exactly when the plan has a cycle |
| `CustomGraph.ValidateCustom` | core/orchestration/presets.py:507-538 | Accepts exactly the well-formed graphs and names exactly the agents of their agent and router nodes; names a complaint that is justified when it refuses |
| `CustomGraph.RunCustom` | core/orchestration/presets.py:434-496 | The loop computes the run the interpreter defines |
| `CustomGraph.RunRecords` | core/orchestration/presets.py:452-496 | The path is a walk along declared edges from the start of at most `max_hops` nodes; the exhausted note is set exactly when all hops were spent and the last node did not stop the run |
| `CustomGraph.RunTells` | core/orchestration/presets.py:449-496 | From each node a run goes where the router's reply says when that is listed, along the first edge otherwise; the final output is that of the last agent it ran, or the user's input when it ran none; it stops for a reason, and a failure is about the node it came to |
| `CustomGraph.EndOnTheLastHopIsNoted` | core/orchestration/presets.py:469-493 | A router that answers "end" on the last hop is noted as exhausted |
| `CustomGraph.FailsIffBrokenInReach` | core/orchestration/presets.py:454-491 | Some replies lead to a configuration error exactly when a broken node is in reach of the hop budget |
| `CustomGraph.ValidatedGraphRuns` | core/orchestration/presets.py:507-538 | A validated graph with known agents, documented node types and an edge out of every router meets no configuration error for any replies |
| `Budgets.BudgetGuard.CheckBeforeStep` | core/orchestration/budget.py:65-77 | Lets a call through exactly below both ceilings, when neither cancelled nor late, and otherwise names the first of the reasons: cancelled, steps, cost, time |
| `Budgets.BudgetGuard.TakeWarning` | core/orchestration/budget.py:83-88 | True the first time spend has reached four fifths of the ceiling, never again |
| `Engines.Engine.CallAgent` | core/orchestration/engine.py:131-321 | One turn keeps every invariant of the run for any model and tools, wherever it is stopped. Its first request is the prompt, compacted exactly when it overflowed; every later one repeats the one before, the reply with its permitted calls and what their tools came back with; the agent's tools are offered but on the last permitted call, none for JSON; each answer is the model's next. A finished turn adds one record under the next step index and returns its output, which goes on the board, and the files found in it go on the artifact log; a failed one has its reason in the last answer of the outside or in the budget, adds its calls, all of one turn, as open and records nothing. Only an interrupted one may leave a batch half run, or have its output on the board or its record already |
| `Engines.Engine.ToolLoop` | core/orchestration/engine.py:190-255 | The loop ends, having sent what `CallAgent` says, with totals that add up its calls and rows for all tools they ran. Finished, it was answered exactly when a reply came without tool calls; failed of itself, every reply asked for tools and all of them ran; interrupted, all but some of the last reply's did |
| `Engines.Engine.RunTools` | core/orchestration/engine.py:375-470 | Each call gets its own result, in request order under any interleaving, and the audit row that says so; batches that may write run in request order; without a write tool the artifact store is untouched. Stopped anywhere, the tools that have a row by then are as in a batch that is not |
| `Engines.Engine.Execute` | core/orchestration/engine.py:401-458 | An unknown tool is answered with an error; a known one with its own result; only a write tool writes, one new version, and every execution adds one audit row, unless it is interrupted before |
| `Engines.Engine.Complete` | core/orchestration/engine.py:323-373 | Exactly when the opening call overflows it is sent once more, compacted; no other call is repeated |
| `Engines.Engine.CaptureArtifacts` | core/orchestration/engine.py:538-565 | Every labelled file of an output is logged as a new version, in order, and nothing else; interrupted, those up to some place are |
| `Engines.Engine.CallAgentJson` | core/orchestration/engine.py:501-536 | No call offers tools; an accepted reply has the required keys and is the first that does; refusing takes exactly one turn more than the retries, none of them of use |
| `Engines.Engine.RunPreset` | core/runner.py:223-246 | Any topology that decides by what was said ends, by the step ceiling alone if by nothing else, as done, misconfigured or with a turn that failed for a reason. The run goes in legs, one for each request the topology made when it had seen the records so far: all its calls are for that request, and it adds one record, or for JSON perhaps a second |
| `Engines.Engine.RunIsBounded` | core/orchestration/budget.py:65-81 | At any time spend is the sum of the records plus the calls of one cut-off turn, calls are within `max_steps`, spend exceeds the ceiling by less than the last call, tools run are at most those asked for and at most `max_tool_calls_per_turn` a call, and all have their audit row but for some of the last reply of a run that was stopped |
| `Turns.CeilingsHold` | core/orchestration/budget.py:65-81 | At most `max_steps` calls; every call was made below both ceilings |
| `Turns.TurnIsBounded` | core/orchestration/engine.py:191-253 | A recorded turn makes at most `max_tool_iterations` + 1 calls and ran exactly the tools its record counts, at most that many times `max_tool_calls_per_turn`; noted as exhausted exactly when no reply came without tool calls |
| `Turns.OpenTurnIsBounded` | core/orchestration/engine.py:191-253 | A turn that was cut off, anywhere, is later than the recorded ones and within the same bounds on calls and tools; all tools ran but for some of the last reply's, and those too unless it was interrupted |
| `Turns.RunRowsBounded` | core/orchestration/engine.py:233-250 | The audit rows of a whole run are as many as the tools its replies asked for up to the cap, at most `max_tool_calls_per_turn` a call, but for some of the very last reply's when a turn was cut off |
| `Turns.NumbersHaveNoGap` | core/orchestration/engine.py:437-451 | In every run the audit rows of a step are numbered 0, 1, 2, … without a gap; only in the last batch of a turn that was cut off some may be missing |
| `Turns.ConversationsArePaired` | core/orchestration/engine.py:233-251 | At every model call of every run, in finished turns and a cut-off one, the conversation is one user turn and then pairs of calls and matching results, the previous one extended; the last permitted call offers no tools |
| `Turns.CostIsConserved` | core/orchestration/engine.py:218-225 | Spend equals recorded costs plus the calls of at most one unfinished turn, wherever it was stopped; billable is the summed markup of exactly the platform's calls in recorded turns |
| `Turns.RecordSums` | core/orchestration/engine.py:268-289 | A step record holds the cost, billable amount, counts and joined texts of its calls |
| `Turns.OutputJoins` | core/orchestration/engine.py:268 | The output of a turn is its texts that are not blank, in order, a blank line between each two |
| `Turns.SumsOfOne` | core/orchestration/engine.py:212-231 | What one call adds: its cost, its markup if the platform paid for it, the calls it asked for up to the cap, its text |
| `Turns.ToolRowsDiffer` | core/models.py:343 | No two audit rows share step and call index |
| `Turns.EveryTurnRecorded` | core/models.py:274 | Step indices of records strictly increase, each record being that of its turn |
| `RunStates.RunState.RecordArtifact` | core/orchestration/state.py:78-91 | A write gets the next version of its path, is logged, and store and counters follow |
| `RunStates.VersionsCountUp` | core/orchestration/state.py:79-80 | The versions of a path are 1 to n in log order |
| `RunStates.RowsDiffer` | core/models.py:312 | Later writes to a path have higher versions, so path and version never repeat |
| `RunStates.StoreHoldsTheLatest` | core/orchestration/state.py:81 | The store holds the last write of every path and nothing else |
| `OpenAICompat.PairedIsAnswered` | core/llm/providers/openai_compat.py:155-192 | A paired conversation maps to a list in which every message with calls is directly followed by one answer to each, in order |
| `OpenAICompat.RequestsAreAnswered` | core/llm/providers/openai_compat.py:155-192 | The same for every request of a run; given distinct ids each call is answered exactly once |
| `OpenAICompat.RequestsSayTheConversation` | core/llm/providers/openai_compat.py:155-192 | From the messages of every request of a run its conversation can be read back: roles, texts, calls and the contents of results, in order; only names and error flags of results are not carried |
| `OpenAICompat.IdsOfRequest` | core/llm/providers/openai_compat.py:171-190 | The call ids of a request are those its turn's earlier replies asked for, so they are distinct exactly when these are |
| `OpenAICompat.AnswersMirrorCalls` | core/llm/providers/openai_compat.py:161-190 | The ids of the answers are the ids of the calls in the same order |
| `ToolDeltas.Assemble` | core/llm/providers/openai_compat.py:90-143 | The loop gathers the slots of the stream and lists the named ones by ascending index |
| `ToolDeltas.SlotIsItsProjection` | core/llm/providers/openai_compat.py:106-117 | A slot holds its own fragments' arguments concatenated and the last non-empty id and name |
| `ToolDeltas.CallsFollowTheIndices` | core/llm/providers/openai_compat.py:135-143 | One call for every slot that got a name, in the order of the indices, with a made-up id where none came |
| `ToolDeltas.CallsSayTheirFragments` | core/llm/providers/openai_compat.py:106-143 | One call for every index that was given a name, by ascending index: the last name and id given, the arguments put together in the order they came |
| `ToolDeltas.ArgumentsJoin` | core/llm/providers/openai_compat.py:116-117 | The arguments of two parts of a stream are put together in their order |
| `ToolDeltas.SortingIsUnique` | core/llm/providers/openai_compat.py:141 | There is one ascending order of the indices |
| `ToolDeltas.InterleavingDoesNotMatter` | core/llm/providers/openai_compat.py:106-143 | Streams that agree index by index give the same calls however they interleave |
| `ToolDeltas.SameIdIff` | core/llm/providers/openai_compat.py:137 | Two calls get one id exactly when they were given the same, both came without one under the same index, or one was given what is made up for the other |
| `Pricing.RoundHalfEven` | core/llm/pricing.py:84 | The nearest integer, the even one of two |
| `Pricing.PriceOfAMillion` | core/llm/pricing.py:79-84 | A million tokens of a kind cost their price in dollars, a hundred million micro-cents each |
| `Pricing.CostAddsUp` | core/llm/pricing.py:69-84 | A call costs what its fresh input, its cached input and its output cost by themselves, in proportion, to the nearest micro-cent |
| `Pricing.UnpricedCachingIsNeutral` | core/llm/pricing.py:69-84 | Without a price of its own cached input costs what fresh input does |
| `Pricing.MicrocentsToCents` | core/llm/pricing.py:87-92 | The least whole number of cents that covers the amount |
| `Pricing.MarkupIsNearest` | core/billing.py:44-47 | A marked-up call is off by at most half a micro-cent |
| `Pricing.MarkupError` | core/billing.py:44-47 | Marking calls up one by one is off the marked-up total by at most half a micro-cent a call |
| `Pricing.DebitCoversTheRun` | core/llm/pricing.py:87-92 | The rounded debit covers the marked-up total but for that error and exceeds it by less than a cent and that error |
| `Settlement.Ceiling` | core/runner.py:100-112 | A workflow gets the smaller of what it asks for and what the deployment allows |
| `Settlement.CeilingsOfTheRun` | core/runner.py:99-113 | A run is under the deployment's ceilings and the workflow's own, and under no lower ones |
| `Settlement.StatusTells` | core/runner.py:221-247 | Each of the five statuses stands for its own kind of ending |
| `Settlement.AddBillable` | core/runner.py:116-121 | The running total is the sum over the step records |
| `Settlement.ExecuteRun` | core/runner.py:83-268 | Whatever ends the topology, completion, a failed turn, a configuration error or a timeout, the row accounts for every call, each made for a request of the topology and within the workflow's ceilings, and the organisation pays the least covering cents under the run's key, once; row and debit stay exactly when no shutdown ended it, the organisation exists and what comes before and after it succeeds |
| `Settlement.DebitCoversThePlatform` | core/runner.py:253-268 | What the organisation's balance loses covers the platform's calls of finished turns with the margin, to within half a micro-cent a call and one cent |
| `Settlement.SecondChargeIsNothing` | core/runner.py:261-268 | Charging a run again changes nothing; all that is under its key is the one debit |
| `Billing.Ledger.PostEntry` | core/billing.py:86-152 | For a known organisation and a new key, adds one entry with the organisation, key, kind and amount asked for and moves that balance by the amount, no other; under a known key returns its entry; keeps the ledger sound |
| `Billing.Ledger.ChargeRun` | core/billing.py:155-176 | Under the run's new key the organisation is charged the least covering cents and its balance falls by them; nothing when nothing is due, or a second time |
| `Billing.Ledger.Grant` | core/billing.py:179-201 | Refuses amounts that are not positive; the others are added to the balance under the key given, or a new one |
| `Billing.Ledger.Reconcile` | core/billing.py:204-216 | Undisturbed, it sets the balance to the sum of the entries and changes nothing in a sound ledger |
| `Billing.FoundIsTheOne` | core/models.py:375 | Organisation and key identify at most one entry, and the lookup finds it |
| `Billing.BalanceAfterIsThePrefixSum` | core/billing.py:120-126 | `balance_after` is the sum of the organisation's entries up to its own |
| `Billing.ChargedOnce` | core/billing.py:155-176 | All that was ever posted under a key is one entry |
| `Billing.RepeatedPostIsHarmless` | core/billing.py:99-117 | A repeated post returns the original entry and changes nothing |
| `Billing.ReconcilingRepairs` | core/billing.py:204-216 | Reconciling sets exactly the named balances right however they drifted |
| `LedgerRuns.EveryRunIsSafe` | core/billing.py:86-152 | In every interleaving keys stay unique and every request is answered with the entry of its key |
| `LedgerRuns.EntriesWereSent` | core/billing.py:86-152 | In every interleaving each entry says what a request said that was sent, amount and all |
| `LedgerRuns.UndisturbedRunsAreSound` | core/billing.py:86-216 | In every interleaving without a stale write-back cached balances are sums and `balance_after` prefix sums |
| `LedgerRuns.ExactIffUndisturbed` | core/billing.py:86-216 | Cached balances are sums and `balance_after` prefix sums all through a run exactly when every reconciliation in it wrote back a sum that what was posted in between did not change |
| `LedgerRuns.WriteBackIsRightIffCurrent` | core/billing.py:206-214 | A reconciliation leaves the right balance exactly when what was posted since it read the sum adds up to nothing |
| `LedgerRuns.StaleSumDrifts` | core/billing.py:206-214 | From any sound ledger, a post inside a reconciliation leaves a wrong balance |
| `LedgerRuns.TwinsAgree` | core/billing.py:99-148 | Two requests with one key get one answer, and it is all that was posted under the key |
| `LedgerRuns.LosersEnd` | core/billing.py:133-148 | A request that lost the race ends after one more lookup |
| `LedgerRuns.EntriesStay` | core/models.py:368-370 | Entries are never changed or removed |
| `SlidingWindow.Bucket.Check` | core/ratelimit.py:17-35 | One call is one evaluation of the script, with the expiry |
| `SlidingWindow.DecisionIsTheCount` | core/ratelimit.py:24-34 | A request is admitted exactly when fewer than `limit` admissions are less than a window old |
| `SlidingWindow.AtMostLimitPerWindow` | core/ratelimit.py:15-35 | However a half-open window is laid, it holds at most `limit` admissions |
| `SlidingWindow.ResetIsHonest` | core/ratelimit.py:26-31 | A refused caller that comes back after the delay, nobody admitted meanwhile, is admitted exactly when the limit is positive |
| `SlidingWindow.ResetIsLeast` | core/ratelimit.py:26-31 | After a whole number of seconds, nobody admitted meanwhile, a refused caller is admitted exactly when that is no less than the delay it was told |
| `SlidingWindow.ExpiryChangesNothing` | core/ratelimit.py:33 | Dropping the key at its expiry changes no decision |
| `ConcurrencySlots.RateLimiter.AcquireSlot` | core/ratelimit.py:38-49 | Takes a slot exactly when fewer than the limit are held, counts it and renews the time to live; otherwise changes nothing |
| `ConcurrencySlots.RateLimiter.ReleaseSlot` | core/ratelimit.py:95-101 | Gives one slot back and keeps the time to live; with none held the counter is zero, for good |
| `ConcurrencySlots.EveryRunIsSafe` | worker/main.py:60-86 | In every timed run with crashes the counter is live plus lost slots, at most the limit, and the key outlasts every holder |
| `ConcurrencySlots.ReleaseNeverClamps` | core/ratelimit.py:97-101 | With the worker's timeouts the clamp is never reached |
| `ConcurrencySlots.RefusalsEnd` | core/ratelimit.py:3-6 | A refusal means live and lost slots fill the limit, which cannot outlast the last grant by a time to live |
| `ConcurrencySlots.CeilingIffSlack` | worker/main.py:156 | The ceiling holds in every run exactly when the key outlasts the longest job |
| `RefreshTokens.Sessions.RefreshToken` | api/routers/auth.py:232-302 | The checks in their order: reuse revokes the family, then expiry, then the account; else the token is spent and its successor issued |
| `RefreshTokens.Sessions.RevokeAll` | api/routers/auth.py:385-390 | Revokes exactly the tokens of the family, or of the user, as of now, keeping earlier revocations and everything else |
| `RefreshTokens.Sessions.LogoutEverywhere` | api/routers/auth.py:319-329 | Revokes exactly the user's tokens and raises the epoch |
| `RefreshTokens.EveryRunIsSafe` | api/routers/auth.py:53-84 | A family has one user, is revoked entirely or not at all, and all its tokens but the newest are spent |
| `RefreshTokens.AcceptedIffNewest` | api/routers/auth.py:267-302 | A token is accepted exactly when it is the newest of an unrevoked family, was issued at most its lifetime ago, its user active |
| `RefreshTokens.ExpiresInTime` | api/routers/auth.py:78 | A token expires its lifetime after the request that was answered with it |
| `RefreshTokens.RefusedBecause` | api/routers/auth.py:252-291 | A refused token is told reuse exactly when it is revoked or superseded, expired only when it is, inactive only when its user is |
| `RefreshTokens.SessionsAreEarned` | api/routers/auth.py:53-84 | A session takes a new user, the right password of an active one or a token of the same user and family; it is the fresh row of the user its access token names |
| `RefreshTokens.ReuseEndsTheFamily` | api/routers/auth.py:267-284 | Once a spent or revoked token is presented no token of the family is ever accepted again |
| `RefreshTokens.ExchangedOnce` | api/routers/auth.py:293-302 | A token is exchanged at most once |
| `RefreshTokens.LoggedOutForGood` | api/routers/auth.py:305-316 | After logging out no token of that family is accepted again |
| `RefreshTokens.RefusalsChangeNothing` | api/routers/auth.py:332-349 | A request that is refused, except for reuse, changes nothing; a new password takes the old one |
| `RefreshTokens.RevocationIsLocal` | api/routers/auth.py:385-390 | Revoking touches one family, or one user, and no other |
| `RefreshTokens.SignedOutForGood` | api/routers/auth.py:319-349 | After signing out everywhere or a new password no earlier session's refresh or access token is good, ever |
| `RefreshTokens.AccessIsGoodIff` | api/routers/auth.py:319-349 | An access token is good exactly while its user is active and has not signed out everywhere or changed the password since |
| `Events.EventEmitter.Emit` | core/events.py:70-88 | Numbers events one after the other and keeps exactly the last `cap` |
| `Events.EventEmitter.Replay` | core/events.py:121-129 | Returns exactly the kept events after the given number |
| `Events.TokenBuffer.Push` | core/events.py:106-110 | No character is lost, duplicated or reordered between the buffer and the published tokens |
| `Events.Generate` | api/routers/runs.py:267-297 | The generator sends what the stream's definition says |
| `Events.StreamIsTwoSlices` | api/routers/runs.py:267-297 | A connection sends one piece of the history up to a terminal event and one piece of what came after it subscribed, or the made-up end |
| `Events.GaplessIff` | api/routers/runs.py:267-297 | The numbers a resumed client gets have no hole exactly when the resume is within the history and nothing that is followed by more is lost between replay and subscription, or the one event is made up |
| `Events.DeliversIff` | api/routers/runs.py:267-297 | A connection sends everything after the resume, to the first terminal event or to where it ends, exactly when the resume is within the history and the replay ends the stream or nothing is published before the subscription; one whose end is made up, exactly when nothing more was published or just that end |
| `Events.CutIsTheEnd` | api/routers/runs.py:272-273 | A stream ends at the first terminal event, or with everything there is |
| `Events.ReconnectsAscend` | api/routers/runs.py:288-290 | Over any reconnects, dropped at any place, numbers strictly increase |
| `Events.SteadyClientsMissNothing` | core/events.py:3-7 | Over reconnects that each lose and make up nothing the client has exactly the first events of the run, as far as its connections reached |
| `Events.TheEndIsHeard` | api/routers/runs.py:291-293 | If the last of such connections does not drop before the first terminal event, that event is the last the client hears |
| `EventStream.OpenRunStream` | web/src/lib/api.ts:158-187 | What is heard and what is left over depend on the text alone, not on its chunks; the leftover holds no separator |
| `EventStream.StreamReader.Read` | web/src/lib/api.ts:164-186 | After every chunk the listener has heard what the whole text so far says |
| `EventStream.SplittingIsUnique` | web/src/lib/api.ts:169-172 | There is one way to cut a text into frames, each up to the first separator |
| `EventStream.SplittingLosesNothing` | web/src/lib/api.ts:169-172 | Frames and leftover glued together are the text |
| `EventStream.FramesIff` | web/src/lib/api.ts:169 | A frame comes out exactly when two line feeds stand side by side |
| `EventStream.CrlfYieldsNothing` | web/src/lib/api.ts:169 | With CR LF line ends no frame ever comes out |
| `EventStream.EventsArrive` | web/src/lib/api.ts:158-187 | Events framed with LF, cut anywhere, arrive in order, each once, and a beginning waits |
| `EventStream.ManyDataLines` | web/src/lib/api.ts:174-178 | A frame of several data lines says them all, line by line |
| `Transcripts.Transcript` | core/orchestration/state.py:96-128 | The loop renders the entries its agent may see, and only these, as defined |
| `Transcripts.ShowsTheNewest` | core/orchestration/state.py:117-128 | The newest entries are shown; the remark stands there exactly when the limit is exceeded, so whenever one is left out |
| `Transcripts.ShownInOrder` | core/orchestration/state.py:117-128 | None is left out in between, the order is the board's; an entry is in full exactly when it is among the recent ones and fits with those after it |
| `Transcripts.VisibleInOrder` | core/orchestration/state.py:93-94 | What an agent sees are exactly the entries it may see, in the order of the board |
| `Transcripts.NothingHiddenIsShown` | core/orchestration/state.py:108-128 | Every block of a transcript is the remark or shows one of these entries |
| `Transcripts.TextOfBlock` | core/orchestration/state.py:119-123 | A block says step, name and role of its entry, and the whole content or its headline |
| `Transcripts.JoinedApart` | core/orchestration/state.py:128 | The text is the blocks in their order with a blank line between each two |
| `Transcripts.TranscriptFits` | core/orchestration/state.py:120-128 | The length is at most the limit, one header and headline, the remark and the separators |
| `Transcripts.ShortHeadlinesLoseNothing` | core/orchestration/state.py:143-146 | A short entry loses only blanks at its ends |
| `Transcripts.HeadlineIsShort` | core/orchestration/state.py:143-147 | A headline has at most 600 characters and its note on what is missing |
| `Transcripts.LongHeadline` | core/orchestration/state.py:143-147 | A longer entry keeps its first 600 characters but for blanks at their end, and says how many follow |
| `Transcripts.RemarkForNothing` | core/orchestration/state.py:125-127 | On any board the remark stands there although nothing is omitted exactly when all entries but the oldest are within the limit and the oldest goes over it |
| `Sprites.Compile` | web/src/components/office/sprites.tsx:28-45 | The nested loops end and give the runs of every row |
| `Sprites.PaintingGivesBackTheRows` | web/src/components/office/sprites.tsx:28-45 | Painting the runs gives back every pixel and nothing beside |
| `Sprites.RowRunsAreMaximal` | web/src/components/office/sprites.tsx:31-42 | The runs of a row are disjoint, ordered and cannot be extended |

## Left out

* Provider SDKs, HTTP, SQL, Redis transport, JSON and regular expressions: oracles or atomic steps. Prompts
  are opaque strings.
* Floating point: prices, markup and scores are exact reals; `round` is half to even on them.
* `findPath` for tiles off the grid; its cache key is the pair of tiles, not the string made of them.
* The turns before and after the loop over a blackboard's tasks (planning, synthesis), and the stopping rules of the
  pipeline, supervisor, debate and swarm topologies, which are instances of `RunPreset`.
* Interruption inside a database statement or a tool: a sink takes a row or not, and a tool that is
  stopped before it writes is one that writes nothing. When a sink fails inside a concurrent batch the
  other tools go on in the background; here they stop.
* Latency, token counts and attempts in the records.
* Running a batch of tools concurrently is any order of whole tools; a write tool writes at most once, and
  a tool that fails is an error result, not an exception.
* Concurrent `emit` calls: incrementing and pushing are two round trips (core/events.py:71-87); here one
  step. The history's time to live.
* `release_slot` is one step although it is two commands (core/ratelimit.py:99-101).
* The cross-process run status machine (claim, cancel, reap) and `release_stale_slots`.
* Two refresh requests with one token at the same time: each request is one step.
* The rollback after a lost insert undoes the caller's whole transaction; the model undoes the insert only.
* The organisation row is read afresh under its lock, as its docstring says (core/billing.py:50-54).
* Expiry of access tokens, cookies, rate limits on login, password and token cryptography.
* UTF-8 decoding of chunks; `JSON.parse` and the listener behind the reader of the event stream.
* `artifact_index`, edit tools, path sanitising, React pages, plain CRUD.
* The run row's output, notes and token counts; the events a run emits.
* The list of available tools in the answer to a call of an unknown one; what exactly is said of a reply
  that was not JSON.
