# An agent office, modelled and proved in Dafny

The system runs an office of language-model agents. A coordinator plans team tasks as small
dependency graphs and advances them one action per tick; every outward mutation of an agent passes
one Action Gateway; agents keep human-editable text files; model calls share a monthly budget. The
project models these parts and proves what the design promises about them, or, where the code does
not keep a promise, exactly when it does.

`dafny verify dfyconfig.toml` checks the whole project. The files follow the program:

- **Plans** (`dependency_graph`, `planning`, `amendment`): the Kahn worklist with its mutable
  in-degrees, the schema validators, the "one terminal step owned by the PIC" rule, the decomposition
  gate and the bounded loop that replans the pending tail of a running task.
- **Rows and the store** (`task_rows`, `plan_runs`, `team_task_store`): the step rows, the store as a
  class with one atomic operation per method, and every interleaving of confirms, status writes,
  minted rows, amendment previews, drafts and the confirm-time swap. The main result is that the
  stored plan hash always equals the one the coordinator recomputes (`PlanRuns.EveryRunSound`).
- **The coordinator** (`ticker`, `review_outcomes`, `tick_outcomes`, `progress`, `live_tasks`, `standstill`,
  `coordinator`, `review_rounds`, `completion`, `fair_completion`): one tick as a function of the rows and of what
  the outside world answers, what a tick does told from the rows alone (`review_outcomes`, `tick_outcomes`), the
  imperative tick that refines it on the shared store, and what the planner's acyclicity check buys the
  ticker: a quiet unfinished task always has a ready step (`Progress.ReadyExists`), at any point of any
  run a tick leaves the task unchanged exactly under a stated condition (`Standstill.NextTickMoves`), and
  a task whose projected cost leaves one share of the cap to spare is completed, in step
  (`Completion.FaultFreeTaskCompletes`) and under every fair order of ticks and deliveries
  (`FairCompletion.FairRunCompletes`). `worked_plans` carries small accepted plans to the states in which
  a promise fails, so that each of those states is one that can come about (`LiveTasks.LiveTask`).
- **The Action Gateway** (`action_policy`, `rate_limit`, `gateway_*`, `action_gateway`): the decision
  layers, then a step relation in which any number of calls on any number of gateways interleave
  between the atomic operations on the idempotency table, the approval queue and the audit log. The
  guarantees of `gateway_runs` are stated of every reachable state. The `ActionGateway` class is the
  same guard chain written imperatively; each of its methods is proved to be a schedule of the
  protocol's steps, so its states are reachable ones (`ActionGateways.AnswerReachable`), and its answer
  is the one an exact outcome table tells from the state before the call (`gateway_outcomes`).
  `gateway_rejections` says when a rejection is final.
- **One attempt of a step** (`step_graph`): the nodes and routers of the step graph as a class whose
  run ends by a decreasing rank with balanced books.
- **Marked text** (`text`, `search`, `marked_sections`, `knowledge_template`, `memory_mirror`):
  first-occurrence reasoning, the render and parse round trip, and the agent section of MEMORY.md.
- **Run events, budget, model fallback** (`run_events`, `budget`, `llm_client`).

How things are modelled: whatever the code cannot decide itself (model replies, handlers, clocks,
process liveness, human decisions, roster answers) is a parameter or a choice of the step relation, so
every statement holds for all of them. Failures are values of result types. Objects that the program
updates in place are classes, its loops are loops, and each method is proved against a specification
function about which the lemmas speak.

## Where the code and its documentation disagree

The model follows the code; the members named state the exact condition, or the case that breaks the
promise.

- **Stuck tasks.** The dead-end rule exists so that no task sits open forever, invisible as broken
  (src/agent/coordinator_graph.py:357-371). A tick leaves a live sound task exactly as it is in two
  cases, and `Standstill.UnchangedIff` is the exact condition. Either the next review row's id is taken:
  the insert raises, nothing changes, the exception leaves the tick, and the younger tasks are not
  looked at (`ClashStands`, `ClashWitness`, `CoordinatorTick.SameStop`). Or every in-flight row waits and
  nothing can be started or concluded: with nothing in flight that is an unfinished task with less than
  one step's share of its cap left or no free slot
  (src/agent/coordinator_nodes/tick_actions.py:57-82; `StuckWithoutHeadroom`, `StuckWitness`), and a row
  awaiting approval without an approval id counts as in flight although no tick polls it
  (src/agent/coordinator_graph.py:250; `UnpolledStands`, `UnpolledWitness`). `NeverStuckWithHeadroom` is
  the guarantee.
- **Concurrency and headroom** bind dispatch only; an approved resume looks at neither
  (`ResumeIgnoresLimits`). A tick keeps the slots exactly if it does not resume when they are taken
  (`ConcurrencyKeptIff`, `OverLimitWitness`), and keeps slots and projected cost exactly if it neither
  resumes what no longer fits nor overruns the cap by aggregating (`HeadroomKeptIff`,
  `OverHeadroomWitness`).
- **Peer review.** At most two reworks, but a finished review that left no verdict is followed by another
  of the same round, without bound (`ReviewRepeatsIff`, `ReviewsWithoutEnd`).
- **A task read in two queries** can be stalled for its hash although nobody tampered with it, exactly
  when the amendments applied in between leave another stored hash (`TornReadInRunIff`,
  `TornReadWitness`).
- **Consults.** `consult_count` counts answered questions; failed ones are free, so a third question can
  go out (`ThirdAskIff`, `ThreeAsksWitness`).
- **Red line.** A structurally invalid email or Telegram message is denied as "not allowlisted", which an
  approval overrides; the email is even queued for one (`MalformedMailIsApprovable`,
  `MalformedMessageIsApprovable`).
- **Hint keys** are namespaced by tool name, but different hints of different tools can still collide
  (`HintsCollideIff`, `NamesApart`, `HintsCanCollide`).
- **Rejection** is undone by exactly one thing, a failed `approve` handing the row back
  (`RejectionUndoneIff`, `RejectionLost`), and is final as soon as no `approve` of the id is under way that
  could still fail (`RejectionIsFinal`); the queue stores the redacted action, and that is what an approval
  authorizes.
- **MEMORY.md.** "Exactly one marker pair afterward" fails for markers below the first section and for
  inline markers (`OnePairIff`, `FreshOnePairIff`, `InlineMarkerSurvives`); repeating facts is not
  idempotent once the cap trims (`RewriteRepeatIff`, `CapDropsRepeat`); and "byte-for-byte" fails for a section
  that does not start a line (`SidesKeptIff`, `NewlineInserted`) and, without a section, for other line
  breaks, more than two trailing newlines, or nothing but newlines (`HumanTextKeptIff`).
- **Down-sampling** can lose a last-run time when the newest ten events of a kind have no readable
  timestamp but an older one has (`SampledMapIff`, `LastRunLost`).
- **Amending.** The swap also deletes pending review and rework rows (`PlanRuns.PendingSlots`); a
  combined plan that breaks the schema raises a validation error the retry loop does not catch
  (`AbortsIff`, `AmendAbortsIff`, `AbortWitness`); and a step whose id or assignee is only blanks is built
  with an empty one, which the second build refuses: amends fail before the model is asked exactly while
  such a step is among the confirmed ones that have started (`AmendRefusedIff`, `BlankIdWitness`).

## Model

| member | source | states |
|---|---|---|
| `Planning.Acyclic` | src/agent/task_decomposition.py:174-191 | `_acyclic` with its mutable in-degrees, adjacency lists and worklist: the answer is yes exactly when a topological order exists, and exactly when no dependency cycle exists, duplicate deps included |
| `DependencyGraph.CountPopped` | src/agent/task_decomposition.py:184-191 | the pop loop ends, and the number of pops equals the number of steps exactly when the graph has an order, and exactly when it has no cycle |
| `DependencyGraph.Verdict` | src/agent/task_decomposition.py:184-191 | when the worklist runs dry early, a concrete cycle lies among the steps that were never popped |
| `DependencyGraph.Relax` | src/agent/task_decomposition.py:186-190 | the inner loop clears one in-degree per listed dependent and leaves in the worklist exactly the unvisited steps without open deps, each once |
| `DependencyGraph.PopLast` | src/agent/task_decomposition.py:184-190 | popping the last worklist entry extends the visited prefix by a step whose deps are all visited already |
| `DependencyGraph.Pop` | src/agent/task_decomposition.py:184-190 | a popped step may be appended to the order, and its dependents are unvisited |
| `Planning.BuildGraph` | src/agent/task_decomposition.py:176-182 | the built adjacency lists name a dependent once per time it lists the dep, and every in-degree is the number of dep entries |
| `Planning.AddEdges` | src/agent/task_decomposition.py:179-182 | reading one step appends it to the list of each dep it names, as often as it names it |
| `Planning.InitialQueue` | src/agent/task_decomposition.py:183 | the first worklist holds exactly the steps without deps, each once |
| `DependencyGraph.OrderExcludesCycle` | src/agent/task_decomposition.py:175-191 | an order leaves no room for any cycle, of any length |
| `DependencyGraph.StuckSetHasCycle` | src/agent/task_decomposition.py:184-191 | a non-empty set of steps that all wait inside the set contains a cycle |
| `DependencyGraph.GrowOrder` | src/agent/task_decomposition.py:174-191 | without a cycle any partial order of visited steps grows to an order of all steps |
| `Planning.AcyclicHasOrder` | src/agent/task_decomposition.py:174-191 | a plan without cycles has an order in which it can be carried out |
| `Planning.SchemaAccepts` | src/agent/task_decomposition.py:114-148 | the plan-level validators pass exactly for 1 to 7 steps with distinct ids, deps that name known steps, no self-dep and only work steps |
| `Planning.MakeStepStable` | src/agent/task_decomposition.py:64-85 | a built step passes the field validators again exactly when its id and assignee survived stripping, which is what a later amend depends on |
| `Planning.DepsProblem` | src/agent/task_decomposition.py:124-133 | no problem is reported exactly when every step's deps are known and none is the step itself |
| `Planning.TypeProblem` | src/agent/task_decomposition.py:135-148 | no problem is reported exactly when every proposed step is a work step |
| `Planning.Terminals` | src/agent/task_decomposition.py:203-205 | the collected terminals are exactly the steps no other step depends on |
| `DependencyGraph.FeedsTerminal` | src/agent/task_decomposition.py:194-218 | in an acyclic plan with one terminal, following dependents leads from every step to it |
| `DependencyGraph.FedByAllIsTerminal` | src/agent/task_decomposition.py:194-218 | conversely a step that every step feeds is the only terminal |
| `Planning.PicOwnsTheFunnel` | src/agent/task_decomposition.py:194-218 | the PIC rule passes exactly when some step of the PIC is fed, directly or transitively, by every step |
| `Planning.Outsiders` | src/agent/task_decomposition.py:246-252 | nobody is reported exactly when every assignee is on the staff |
| `Planning.ValidateDecomposition` | src/agent/task_decomposition.py:221-265 | the gate accepts exactly the plans in bounds, acyclic, staffed and, with a PIC, ending at the PIC, and returns the plan with that PIC, which is the CEO-named one, stripped, if one was named and the model's own otherwise; a cycle error means there is a cycle |
| `Planning.AcceptedPlanEndsAtPic` | src/agent/task_decomposition.py:194-218 | in an accepted plan with a PIC every step feeds one step, the only terminal, and that step is the PIC's |
| `Amendment.AttemptAmend` | src/agent/team_task_amend_prompt.py:136-157 | one reply is accepted, retried or aborts exactly as the specification of the parse, combine, validate and PIC checks says, which `ReplyIs` tells in terms of the reply alone |
| `Amendment.ReplyIs` | src/agent/team_task_amend_prompt.py:136-157 | a reply is accepted with a slice exactly when it parses into these built steps, they pass their own schema and fit the frozen rows, the combined plan is acyclic and staffed, and with a PIC the slice has one step nothing waits for and it is the PIC's; it escapes the retry exactly when its plan does not fit the frozen rows; it is asked again exactly otherwise |
| `Amendment.AmendWithRetries` | src/agent/team_task_amend_prompt.py:107-160 | no staff is refused before any model call, and then only; with a rebuilt prefix every reply before the last one asked for is one to be asked again, the last one settles the outcome in the sense of `ReplyIs`, all three are used up only if all three are to be asked again, and the cost is the sum over the replies asked for |
| `Amendment.AmendLoop` | src/agent/team_task_amend_prompt.py:127-160 | the loop ends at the first reply that is not to be asked again, asks at most three times, and adds up exactly the costs of the replies it asked for |
| `Amendment.AmendedIff` | src/agent/team_task_amend_prompt.py:129-160 | with staff and a rebuilt prefix the amend succeeds with a slice if and only if one of the first three replies is accepted with it and every reply before it is to be asked again |
| `Amendment.RebuiltPrefix` | src/agent/team_task_amend_prompt.py:91-104 | rebuilding the frozen steps through the validators gives back the very same steps, so the bound hash is the hash of the stored rows |
| `Amendment.SliceAcyclic` | src/agent/team_task_amend_prompt.py:138-147 | the new pending slice is acyclic because the combined plan is, although only the combined plan was checked |
| `Amendment.AcceptedIsValid` | src/agent/team_task_amend_prompt.py:136-154 | an accepted reply combines with the frozen rows to a sound plan, is a sound plan alone, and meets the PIC rule alone |
| `Amendment.AmendedIsValid` | src/agent/team_task_amend_prompt.py:129-160 | whatever attempt succeeds, its plan is the frozen rows followed by a valid slice |
| `Amendment.SliceEndsAtPic` | src/agent/team_task_amend_prompt.py:140-147 | in a valid amendment of a PIC task every new step feeds one new step, and it is the PIC's |
| `Amendment.AbortsIff` | src/agent/team_task_amend_prompt.py:136-157 | a reply escapes the retry exactly when it is a plan of its own that does not fit the frozen rows: more than seven steps together, a shared id, or a frozen dep that is gone |
| `Amendment.AbortWitness` | src/agent/team_task_amend_prompt.py:138 | a one-step reply that reuses a frozen id ends the loop with the schema error |
| `Amendment.AmendAbortsIff` | src/agent/team_task_amend_prompt.py:129-160 | the whole loop fails with a schema error exactly when some reply is one that does not fit and every earlier one was to be retried |
| `Amendment.BuiltRefusedIff` | src/agent/task_decomposition.py:64-85 | a step that was built once is refused the second time exactly if stripping had left it without id or assignee |
| `Amendment.FrozenFailsIff` | src/agent/team_task_amend_prompt.py:91-104 | for rows of built steps the frozen prefix cannot be rebuilt exactly when some confirmed row that has started has an empty id or assignee |
| `LiveTasks.AmendRefusedIff` | src/agent/team_task_amend_prompt.py:124-127 | at any point of any run of store operations and ticks the prefix of an amend fails exactly when such a row is among the task's rows; with staff the amend then ends without asking the model |
| `WorkedPlans.BlankIdWitness` | src/agent/team_task_amend_prompt.py:91-104 | a plan whose one step id is a single blank is accepted with the empty id; once the step has started, every amend with staff ends with the schema error |
| `TaskRows.ConfirmedAppend` | src/agent/coordinator_graph.py:421-425 | the hashed content of appended rows is the concatenation of the hashed contents |
| `TaskRows.ConfirmedPlanned` | src/runtime/team_task_steps.py:184-198 | freshly planned rows hash to the plan they were written from |
| `TaskRows.PlanIsSound` | src/runtime/team_task_store.py:185-198 | writing a sound plan of work steps as the draft makes the task sound: hash equal to the recomputed content, ordered, ids distinct |
| `Amendment.AcceptedPlanIsSound` | src/agent/task_decomposition.py:221-265 | a plan that passed the field validators, the schema and the gate is the sound plan that the hash and the ticker theorems start from |
| `Amendment.Decompose` | src/agent/ops_assign_team_task.py:178-192 | one decomposition attempt yields a plan exactly when the parsed steps are such an accepted plan and its PIC, a CEO-named one before the model's own, is not empty |
| `Amendment.AssignedPlanEndsAtPic` | src/agent/ops_assign_team_task.py:183-192 | so every newly assigned task has a PIC on the staff, and all its steps feed one terminal step, which is the PIC's |
| `PlanRuns.StartSound` | src/agent/ops_assign_team_task.py:250-259 | a task persisted from an accepted plan satisfies the invariant of every run |
| `TaskRows.AdvanceSound` | src/runtime/team_task_steps.py:335-384 | a status write that may happen keeps the task sound |
| `TaskRows.InsertSound` | src/runtime/team_task_steps.py:201-228 | a minted review or rework row leaves the confirmed plan and its hash alone |
| `TaskRows.StartedGrounded` | src/runtime/team_task_steps.py:441-446 | dropping the pending rows leaves every minted row with the rows it waits for |
| `PlanRuns.SlotUnchanged` | src/runtime/team_task_amend.py:242-250 | when the full hash still matches and no old pending row has raced away, every row still stands as it did when the draft was drawn |
| `PlanRuns.FrozenAgrees` | src/agent/team_task_amend_prompt.py:91-104 | rows that stand alike have the same frozen prefix |
| `PlanRuns.PendingSlots` | src/runtime/team_task_steps.py:434-452 | deleting the drafted ids deletes exactly the pending rows, minted ones included |
| `PlanRuns.DraftFits` | src/agent/ops_adjust_team_task.py:96-103 | the hash the draft binds is the content of the started rows followed by the new slice |
| `PlanRuns.ConfirmSound` | src/runtime/team_task_amend.py:212-274 | an applied amendment leaves a sound task whose rows are the started rows followed by the new slice |
| `PlanRuns.ConfirmOutcomeIs` | src/runtime/team_task_amend.py:212-274 | what confirming a draft comes to, told from the rows it was drawn from and the rows there are now: applied exactly if it is live, the steps are the same, no row to be replaced has started since, and no id of the new slice has been taken by a minted row that stays; each refusal likewise |
| `PlanRuns.BoundThrough` | src/runtime/team_task_amend.py:96-127 | drafts and previews that are still waiting stay usable while the ticker moves the rows on |
| `PlanRuns.NextKeeps` | src/runtime/team_task_store.py:185-222 | every store operation keeps soundness of the task and of every live draft |
| `PlanRuns.EveryRunSound` | src/agent/coordinator_graph.py:389-435 | in every interleaving of confirms, status writes, minted rows, previews, drafts and amendments the stored hash equals the recomputed one, so an untampered task is never stalled for its hash |
| `PlanRuns.TornReadFailsIff` | src/runtime/team_task_store.py:224-242 | header and rows read in two queries fail the hash check exactly when the stored hash changed in between |
| `PlanRuns.TornReadInRunIff` | src/runtime/team_task_store.py:224-242 | at any two points of any run, header read at the first and rows at the second fail the check exactly when the last amendment applied in between, if any, left another stored hash than the header's |
| `PlanRuns.TornReadInRun` | src/runtime/team_task_store.py:224-242 | such a failure takes an applied amendment whose new hash differs, at a point between the two |
| `WorkedPlans.TornReadWitness` | src/runtime/team_task_store.py:224-242 | a run of four operations in which header and rows on both sides of one amendment fail the check although the task is intact at both points |
| `TeamTaskStore.FindRow` | src/runtime/team_task_steps.py:239-250 | finds the row of an id exactly when there is one |
| `TeamTaskStore.DeleteDrafted` | src/runtime/team_task_steps.py:423-446 | the delete loop reports exactly the ids that are not pending and removes exactly the others |
| `TeamTaskStore.InsertPlanned` | src/runtime/team_task_steps.py:453-466 | the insert loop succeeds exactly when no id clashes and then appends the planned rows in order |
| `TeamTaskStore.FreshRows` | src/runtime/team_task_steps.py:172-198 | replacing all rows succeeds exactly for distinct ids and leaves exactly the planned rows |
| `TeamTaskStore.DispatchListed` | src/runtime/team_task_store.py:301-315 | a task is on the dispatch list exactly when it was created and is open or running; a planned one never is |
| `TeamTaskStore.DispatchInOrder` | src/runtime/team_task_store.py:301-315 | of two listed tasks the one listed first was created first |
| `TeamTaskStore.Store.CreateTask` | src/runtime/team_task_store.py:146-165 | a new id gets an empty task in planning status; a taken id, or the room of the global log, changes nothing |
| `TeamTaskStore.Store.SetDraftPlan` | src/runtime/team_task_store.py:185-198 | writes rows and hash of the same plan together, or nothing when ids repeat |
| `TeamTaskStore.Store.ConfirmPlan` | src/runtime/team_task_store.py:200-222 | opens the task exactly when it is still planned and its stored hash is the expected one, and touches nothing else |
| `TeamTaskStore.Store.SetTaskStatus` | src/runtime/team_task_store.py:317-323 | changes the status of one task and nothing else |
| `TeamTaskStore.Store.RecordTaskCost` | src/runtime/team_task_store.py:338-352 | adds to the two task-level costs and nothing else |
| `TeamTaskStore.Store.SumCost` | src/runtime/team_task_store.py:354-360 | the steps' costs plus the decompose and the aggregate cost, zero for an unknown task |
| `TeamTaskStore.Store.ListDispatchable` | src/runtime/team_task_store.py:301-315 | the open and running tasks, oldest first |
| `TeamTaskStore.Store.ReserveStep` | src/runtime/team_task_steps.py:263-289 | hands out a fresh lease, sets the row running and drops its approval id; an unknown row is an error that changes nothing |
| `TeamTaskStore.Store.RecordSpawn` | src/runtime/team_task_steps.py:319-323 | stores the process id on one row and nothing else |
| `TeamTaskStore.Store.SetStepStatus` | src/runtime/team_task_steps.py:335-384 | writes exactly when the row exists and the guarding lease, if given, is the row's current one, so a stale worker's write is a no-op |
| `TeamTaskStore.Store.InsertStep` | src/runtime/team_task_steps.py:201-228 | appends one pending system row that never asks for a review itself, or reports the duplicate and changes nothing |
| `TeamTaskStore.Store.SetAmendmentDraft` | src/runtime/team_task_amend.py:96-127 | the newest draft is the only live one of its task |
| `TeamTaskStore.Store.CancelAmendmentDraft` | src/runtime/team_task_amend.py:142-150 | withdraws a draft exactly when it is still live |
| `TeamTaskStore.Store.ConfirmAmendment` | src/runtime/team_task_amend.py:212-277 | one transaction: the outcome of the specification, with the swap, the new hash and the used-up draft together, or nothing at all |
| `Ticker.ReadyListed` | src/agent/coordinator_nodes/tick_actions.py:32-41 | the ready list holds exactly the pending rows whose deps are all done, in row order, each once |
| `Ticker.NewestChild` | src/agent/coordinator_nodes/review_insert.py:54-62 | the newest review or rework row of a content row, if any |
| `Ticker.Quota` | src/agent/coordinator_nodes/tick_actions.py:69-85 | at most the whole ready list is started |
| `Ticker.SpawnFirst` | src/agent/coordinator_nodes/tick_actions.py:71-84 | starting k rows does nothing exactly when k is zero, and keeps all rows in place |
| `Ticker.FirstReview` | src/agent/coordinator_graph.py:337-353 | the review scan stops at the first row it can act on |
| `ReviewOutcomes.CallsIff` | src/agent/coordinator_graph.py:323-353 | the scan acts on exactly the rows that call for something: a finished step that asked for a review and has had none, a newest review without verdict, a rejection not reworked in its round, a rejection in the last round, a rework no later review has graded |
| `ReviewOutcomes.PassedCallsNothing` | src/agent/coordinator_nodes/review_insert.py:130-131 | a review whose verdict passed calls for nothing: no row is added and nothing is stalled on its account |
| `ReviewOutcomes.NoCallNoReview` | src/agent/coordinator_graph.py:323-353 | when no row calls, the tick adds no row, stalls nothing for a review and raises nothing |
| `ReviewOutcomes.FirstReviewAdded` | src/agent/coordinator_nodes/review_insert.py:65-95 | the tick that reaches a finished step that asked for a review adds one pending review row of round 0 by the colleague the registry names, waiting for the step |
| `ReviewOutcomes.ReviewRepeated` | src/agent/coordinator_nodes/review_insert.py:115-128 | a review that left no verdict is followed by one of the same round by the same colleague |
| `ReviewOutcomes.ReworkAdded` | src/agent/coordinator_nodes/review_insert.py:130-152 | the tick that reaches a rejection in round 0 or 1 without a rework of that round adds one pending rework row of that parent and round, for the step's author, waiting for the newest review; if its id is taken it raises and changes nothing |
| `ReviewOutcomes.RejectionStalls` | src/agent/coordinator_nodes/review_insert.py:133-141 | the tick that reaches a rejection in round 2 sets the task stalled and changes nothing else |
| `ReviewOutcomes.NextReviewAdded` | src/agent/coordinator_nodes/review_insert.py:155-188 | a finished rework is reviewed in the next round, by the colleague the registry names for the step's author, waiting for the rework |
| `Progress.ReadyInOrder` | src/agent/coordinator_nodes/tick_actions.py:37-41 | an unfinished confirmed step leads, along the acyclic plan's order, to a step that is ready |
| `Progress.ReadyMinted` | src/agent/coordinator_nodes/review_insert.py:191-238 | a minted row whose earlier rows are all done is ready, because it only waits for earlier rows |
| `Progress.ReadyExists` | src/agent/coordinator_nodes/tick_actions.py:32-41 | the planner's acyclicity check pays off: while nothing runs, waits or is dead and something is unfinished, some row is ready |
| `Progress.HashStallIff` | src/agent/coordinator_graph.py:389-435 | a tick stalls a task for its hash exactly when stored and recomputed hash differ, so never a sound one |
| `Progress.IdleUnchanged` | src/agent/coordinator_graph.py:223-269 | a tick that reports no action, or from which an exception escapes, has changed nothing |
| `Progress.DispatchIdle` | src/agent/coordinator_nodes/tick_actions.py:44-85 | dispatch starts nothing exactly when nothing is ready or there is no slot or no headroom for one step |
| `TickOutcomes.OverdueOutcome` | src/agent/coordinator_nodes/tick_actions.py:127-170 | with no review due the tick takes the first overdue running row: a dead worker without a result is restarted once under a fresh lease and failed the second time, or at once if its assignee has left; a live one past its lease is timed out; nothing else changes |
| `TickOutcomes.DecidedOutcome` | src/agent/coordinator_nodes/tick_actions.py:186-224 | with nothing overdue the tick takes the first decided approval: a yes resumes the row under a fresh lease if its assignee is still there, anything else fails it |
| `TickOutcomes.StartedIff` | src/agent/coordinator_nodes/tick_actions.py:32-85 | with nothing to review or poll the tick starts exactly the pending rows with all deps done that, together with the running ones and the startable ones above them, fit the slots and the cap, and leaves every other row alone |
| `TickOutcomes.StartedWhenDepsDone` | src/agent/coordinator_nodes/tick_actions.py:32-41 | whatever a tick does, a row it moves out of pending had every dep done |
| `TickOutcomes.CapStallIff` | src/agent/coordinator_graph.py:228-238 | a tick stalls a task for its cost exactly when the hash holds and the spend is above the cap |
| `TickOutcomes.ConcludedOutcome` | src/agent/coordinator_graph.py:262-264 | with every row done and no review due the task is completed, and the aggregation's cost is added to it |
| `TickOutcomes.DeadEndIff` | src/agent/coordinator_graph.py:357-386 | with nothing to review or poll a task is stalled as a dead end exactly when a step has failed or timed out, nothing is in flight, and nothing can be started |
| `Progress.IdleMeansInFlightOrNoRoom` | src/agent/coordinator_graph.py:223-269 | a "none" tick means something is in flight, or there is no slot or headroom |
| `Progress.StuckWithoutHeadroom` | src/agent/coordinator_nodes/tick_actions.py:71-82 | the failing family: within the cap but with less than one step's share left, an unfinished quiet task that owes no review is left exactly as it is |
| `Progress.MintWaitsForRows` | src/agent/coordinator_nodes/review_insert.py:207-238 | a minted row waits only for rows that exist |
| `Progress.ReviewKeeps` | src/agent/coordinator_graph.py:323-353 | acting on a finished row keeps the plan sound |
| `Progress.SpawnFirstKeeps` | src/agent/coordinator_nodes/tick_actions.py:71-84 | starting some of the ready rows keeps the plan sound and the rest ready |
| `Progress.ActKeeps` | src/agent/coordinator_graph.py:223-269 | every tick keeps the plan sound and every row that has started in place |
| `Progress.TickKeepsRun` | src/agent/coordinator_graph.py:223-269 | a tick may happen at any point of a run with previews and drafts outstanding and keeps the whole invariant |
| `Progress.EveryLiveRunSound` | src/agent/coordinator_graph.py:389-435 | the whole invariant, hash equality included, holds at every point of every run of store operations and ticks in any order |
| `Standstill.QuietTickIff` | src/agent/coordinator_graph.py:223-269 | for every sound task: a tick reports nothing exactly when the cap holds, no review is due, every in-flight row waits (alive and in time, undecided, or never polled) and there is nothing to start or conclude; it raises exactly when the cap holds and the next review row's id is taken |
| `Standstill.UnchangedIff` | src/agent/coordinator_graph.py:223-269 | a tick leaves a live sound task exactly as it is if and only if one of these two conditions holds |
| `Standstill.NeverStuckWithHeadroom` | src/agent/coordinator_graph.py:223-269 | with nothing in flight, a slot, one step's share of the cap unspent and no taken review id, every tick changes the state |
| `Standstill.NextTickMoves` | src/agent/coordinator_graph.py:223-269 | at any point of any run of store operations and ticks, the next tick of a live task never stalls it for its hash and leaves it unchanged exactly under that condition |
| `WorkedPlans.TaskLive` | src/agent/ops_assign_team_task.py:250-259 | a plan that passes every check can be brought, by confirming it and by status writes alone, to any mixture of row states with any amount spent on planning it |
| `Standstill.StuckWitness` | src/agent/coordinator_nodes/tick_actions.py:71-82 | a task that can come about and that every tick ignores although its one step is ready: cap 7.0, 6.5 spent on planning it |
| `Standstill.ClashStands` | src/agent/coordinator_nodes/review_insert.py:207-215 | failing family: a review row whose id is taken makes the tick raise and change nothing |
| `Standstill.ClashWitness` | src/agent/coordinator_nodes/review_insert.py:207-215 | an accepted two-step plan can come to a state with nothing spent, a free slot and nothing in flight, in which every tick raises |
| `Standstill.UnpolledStands` | src/agent/coordinator_graph.py:250-254 | failing family: when what is in flight awaits approval without a pollable id and nothing is ready, no answer of the outside world ever moves the task |
| `Standstill.UnpolledWitness` | src/agent/coordinator_graph.py:372-377 | an accepted plan can come to a state with a failed step that no tick ever stalls |
| `CoordinatorTick.Coordinator.ReserveAndSpawn` | src/agent/coordinator_nodes/tick_actions.py:88-124 | an unauthorized assignee fails the row without a lease; otherwise one fresh lease and the spawned process are recorded on the row |
| `CoordinatorTick.Coordinator.RetryOrFail` | src/agent/coordinator_nodes/tick_actions.py:134-152 | a dead worker without artifact is restarted once and then failed, with its retry count kept in step |
| `CoordinatorTick.Coordinator.PollRunningStep` | src/agent/coordinator_nodes/tick_actions.py:127-170 | dead worker first, then expired lease, else nothing: exactly the specification's outcome on store and retry counts |
| `CoordinatorTick.Coordinator.PollAwaitingStep` | src/agent/coordinator_nodes/tick_actions.py:186-224 | an approved row is started afresh, a rejected one fails under its own lease, an undecided one is left exactly alone |
| `CoordinatorTick.Coordinator.DispatchReady` | src/agent/coordinator_nodes/tick_actions.py:44-85 | the loop over candidates with its shrinking headroom starts exactly the specified prefix of the ready list |
| `CoordinatorTick.Coordinator.InsertReviewRows` | src/agent/coordinator_graph.py:323-353 | the scan acts on the first row that calls for a review, rework or stall, and reports nothing only when none does |
| `CoordinatorTick.Coordinator.PollRunningSteps` | src/agent/coordinator_graph.py:244-248 | the loop acts on the first running row that needs it and on no other |
| `CoordinatorTick.Coordinator.PollAwaitingSteps` | src/agent/coordinator_graph.py:250-254 | the loop acts on the first decided approval and on no other |
| `CoordinatorTick.Coordinator.WrapUp` | src/agent/coordinator_graph.py:262-269 | a finished task is aggregated and closed, a dead-ended one is stalled, any other is left alone |
| `CoordinatorTick.Coordinator.ActOnTask` | src/agent/coordinator_graph.py:223-269 | the imperative tick on the shared store is the specified tick on this task and changes no other task |
| `CoordinatorTick.Coordinator.RunOneTick` | src/agent/coordinator_graph.py:201-220 | exactly one action per tick, on the first dispatchable task that has one; no action means every dispatchable task was idle and nothing changed; an exception ends the whole tick at that task with nothing changed, so the younger tasks are not looked at |
| `CoordinatorTick.SameStop` | src/agent/coordinator_graph.py:216-219 | as long as the answers stay the same, every tick after an exception ends at the same task |
| `Completion.FaultFreeTaskCompletes` | src/agent/coordinator_graph.py:201-269 | a plan without reviews whose projected cost leaves one step's share of the cap to spare is completed within one round per pending step plus one, when workers succeed |
| `Completion.RoundOnTrack` | src/agent/coordinator_graph.py:223-269 | one tick and one round of deliveries finishes at least one pending step and keeps the projected cost one share below the cap |
| `Completion.CostMoves` | src/runtime/team_task_store.py:354-360 | delivering a step moves its cost from projected to spent; the sum is conserved |
| `Completion.DispatchFits` | src/agent/coordinator_nodes/tick_actions.py:57-85 | after a dispatch the spend plus one estimate per running row fits the cap and the slots, and dispatch stopped only because the next row would not fit |
| `Completion.ResumeIgnoresLimits` | src/agent/coordinator_nodes/tick_actions.py:211-213 | a tick that resumes an approved row adds one running row and spends nothing, whatever the limits say |
| `Completion.ConcurrencyKeptIff` | src/agent/coordinator_nodes/tick_actions.py:57-60 | from at most the concurrency limit, a whole tick stays within it if and only if it does not resume an approved row with a valid assignee while the limit is reached |
| `Completion.OverLimitWitness` | src/agent/coordinator_nodes/tick_actions.py:211-213 | a state an accepted plan can come to, at a limit of one, that the next tick leaves with two running rows |
| `Completion.HeadroomKeptIff` | src/agent/coordinator_nodes/tick_actions.py:57-85 | when the running rows, at one share of the cap each, fit slots and cap, they still do after a whole tick if and only if it neither resumes a row for which no slot or no share is left nor concludes the task with an aggregation that overruns the cap |
| `Completion.ConcludesIff` | src/agent/coordinator_graph.py:262-269 | a tick aggregates exactly when the hash and the cap hold, every row is done and no review is due |
| `Completion.OverHeadroomWitness` | src/agent/coordinator_nodes/tick_actions.py:211-213 | a state an accepted plan can come to with 5.5 of a cap of 7.0 spent and one row running, which fits, that the next tick leaves with a projected 7.5 |
| `FairCompletion.FairRunCompletes` | src/agent/coordinator_graph.py:201-269 | without lockstep: however ticks and deliveries interleave in an endless run, if ticks go on and every running step is delivered at some time, the task is completed |
| `FairCompletion.TurnMoves` | src/agent/coordinator_graph.py:223-269 | a single tick or delivery completes the task, leaves it as it is, or leaves less to do, and never breaks the projected budget |
| `FairCompletion.DecisiveTurn` | src/agent/coordinator_nodes/tick_actions.py:44-85 | the delivery of a running row, and with nothing running the next tick, is never the kind that leaves the task as it is |
| `Progress.MintShaped` | src/agent/coordinator_nodes/review_insert.py:191-238 | a minted row is a review of round 0 to 2 or a rework of round 0 or 1 whose id tells parent and round, and no review of its parent has come further |
| `ReviewRounds.EveryRunBoundsReviews` | src/agent/coordinator_nodes/review_insert.py:51-188 | at every point of every run of store operations and ticks, review rounds are at most 2, rework rounds at most 1, and each round of a step has at most one rework row |
| `ReviewRounds.ReworkedAtMostTwice` | src/agent/coordinator_nodes/review_insert.py:133-152 | so at no point of any run does a step have three rework rows |
| `ReviewRounds.ReviewRepeatsIff` | src/agent/coordinator_nodes/review_insert.py:112-128 | a tick mints another review of a round exactly when what it acts on is the newest review and its verdict is missing |
| `ReviewRounds.ReviewsWithoutEnd` | src/agent/coordinator_nodes/review_insert.py:115-127 | nothing bounds the reviews of one round: for every n a task with n finished reviews of round 0 can come about and gets one more from the next tick while no verdict appears |
| `ActionPolicy.AllowlistCannotMoveRedLine` | src/actions/hard_block.py:560-630 | no allowlist can add or remove a hard denial; it only matters for tool calls past the red line |
| `ActionPolicy.ApprovalReleases` | src/actions/action_gateway.py:228-265 | a human approval lets an action run exactly when it is not hard-denied, and whatever an unapproved call would do, approval never refuses it without a hard denial |
| `ActionPolicy.SensitiveActionsAsk` | src/actions/hard_block.py:84-120 | every email and every pull-request merge waits for a human unless hard-denied, even though a merge is not allowlisted |
| `ActionPolicy.MalformedMailIsApprovable` | src/actions/hard_block.py:391-404 | an email without recipient or body is only "not allowlisted": it is queued, and an approval sends it |
| `ActionPolicy.MalformedMessageIsApprovable` | src/actions/hard_block.py:424-435 | a Telegram message without chat or text is refused as "not allowlisted" only: run with an approval in hand it is sent |
| `ActionPolicy.ActionKeyIsNoSlot` | src/actions/action_gateway.py:78-93 | no action's idempotency key is ever a daily-slot key |
| `ActionPolicy.SlotKeyInjective` | src/actions/auto_approve_policy.py:129-131 | a slot key determines its type, date and number |
| `ActionPolicy.SameHintSameTool` | src/actions/action_gateway.py:86-91 | one hint under two tool names gives one key exactly when the names are the same |
| `ActionPolicy.HintsCanCollide` | src/actions/action_gateway.py:88-91 | two actions of different tools with different hints and one idempotency key |
| `ActionPolicy.HintsCollideIff` | src/actions/action_gateway.py:86-91 | two hinted actions share a key exactly when name and hint agree, or one name continues the other after a colon and the hints are cut to match |
| `ActionPolicy.NamesApart` | src/actions/action_gateway.py:86-91 | tools of which neither name continues the other after a colon never share a key |
| `ActionPolicy.HintIsNoDigest` | src/actions/action_gateway.py:86-93 | a hinted key is never the content digest of an action without hint |
| `GatewayOutcomes.VerdictIs` | src/actions/hard_block.py:84-120 | the three verdicts of the policy, told per kind of action: hard-denied exactly by its red line, allowed exactly when also listed (the allowlist's tools, the listed commands, a well-formed message), asking first exactly for mail, a merge, a ticket change or a post to an outside channel |
| `GatewayOutcomes.LadderIs` | src/actions/auto_approve_policy.py:68-111 | the trust ladder lets an action try for a slot exactly when an enabled grant of its kind covers its destination and, asked for in chat, the sender is a trusted one in a direct Telegram message |
| `RateLimit.Trimmed` | src/actions/action_gateway.py:452-454 | popping from the front drops exactly a prefix of old calls and leaves none older than the cutoff in front |
| `RateLimit.TrimKeeps` | src/actions/action_gateway.py:448-461 | the short list is always the last-60-seconds part of the whole history |
| `RateLimit.AdmitKeeps` | src/actions/action_gateway.py:455-461 | admitting a call while the list is not full keeps the history sorted and spaced |
| `RateLimit.AnyWindow` | src/actions/action_gateway.py:448-461 | the (i+10)-th admission comes strictly more than 60 seconds after the i-th |
| `GatewaySafety.StepKeepsShapes` | src/actions/action_gateway.py:190-312 | at every program point of every call, what has been decided so far is justified by the action and the settings |
| `GatewaySafety.StepKeepsKeys` | src/actions/dedup_store.py:39-53 | after any atomic step of any call the table holds exactly the claimed keys and slot keys, each claimed by one call |
| `GatewaySlots.StepMovesSlots` | src/actions/auto_approve_policy.py:114-133 | a step takes a slot only by winning it, and no step of any kind ever frees one |
| `GatewaySlots.StepKeepsSegments` | src/actions/auto_approve_policy.py:130-133 | the slots of a type and date stay an initial segment within some gateway's cap |
| `GatewaySlots.StepKeepsViews` | src/actions/auto_approve_policy.py:130-133 | a call that has tried up to slot n knows that all of them are taken, whatever the others do |
| `GatewaySlots.StepKeepsOwners` | src/actions/auto_approve_policy.py:130-133 | no two calls ever run on the same slot |
| `GatewayRecords.StepKeepsApprovals` | src/actions/approval_store.py:92-107 | a pending row has no approver, an approver's row keeps its action, and approvers of one id never meet |
| `GatewayRecords.StepKeepsAudit` | src/actions/action_gateway.py:463-487 | the audit log stays the exact record of the outcomes so far |
| `GatewayRecords.CheckKeepsHistory` | src/actions/action_gateway.py:448-461 | the rate check keeps the short list faithful to the history, and refuses only when ten admissions lie in the window |
| `GatewayRuns.EveryRunSafe` | src/actions/action_gateway.py:190-446 | every reachable state, for any number of calls and gateways and every interleaving, satisfies all of the invariants |
| `GatewayRuns.NextReachable` | src/actions/action_gateway.py:157-446 | a new call or one atomic step of any call leads from a reachable state to a reachable state |
| `GatewayRuns.AtMostOncePerKey` | src/actions/action_gateway.py:284-312 | of the calls with one key at most one is in flight or has succeeded |
| `GatewayRuns.HeldIffInFlightOrSucceeded` | src/actions/action_gateway.py:284-312 | an action's key is held exactly while a call with it is in flight or once one has succeeded |
| `GatewayRuns.FailureFreesKey` | src/actions/action_gateway.py:294-307 | a failed or handler-less call gives its key back: a waiting duplicate that would be skipped before can run after |
| `GatewayRuns.SlotsFormASegment` | src/actions/auto_approve_policy.py:114-133 | the slots taken for a type and date are exactly 1 to k, with k at most the largest cap in use |
| `GatewayRuns.RefusedOnlyWhenFull` | src/actions/auto_approve_policy.py:126-133 | a call sent to the queue for lack of slots saw every slot within its cap taken |
| `GatewayRuns.SlotsAreNotShared` | src/actions/auto_approve_policy.py:130-133 | a call's slot is taken and is no other call's slot |
| `GatewayRuns.AutoRunsWithinCap` | src/actions/action_gateway.py:314-339 | at most the largest cap of auto-approved actions of a type execute per date, over all gateways |
| `GatewayRuns.PendingIsUntouched` | src/actions/action_gateway.py:421-435 | a pending approval has no `approve` in flight and none that returned normally |
| `GatewayRuns.ApprovedAtMostOnce` | src/actions/action_gateway.py:421-435 | of all `approve` calls for one id at most one is in flight or has returned normally |
| `GatewayRuns.FailedApproveReopens` | src/actions/action_gateway.py:432-435 | a failed approved run makes the id pending again, even over a rejection that raced with it |
| `GatewayRejections.RejectionUndoneIff` | src/actions/action_gateway.py:432-446 | in every reachable state one atomic step undoes a rejection exactly when it is a failed `approve` of that id handing the row back |
| `GatewayRejections.RejectionIsFinal` | src/actions/action_gateway.py:421-446 | once an approval is rejected and no `approve` of the id is under way that could still fail, it stays rejected in every continuation of the run, and no `approve` of it succeeds any more |
| `GatewayRejections.RejectionLost` | src/actions/action_gateway.py:421-446 | a run in which an approval is rejected while its `approve` is running, the run fails, and the row is pending again |
| `GatewayRuns.SuccessIsJustified` | src/actions/action_gateway.py:217-312 | every successful run had a handler, was not hard-denied, ran with kill switch and dry-run off, and was allowed directly, approved by a human for the stored action, or let through on a slot that is taken |
| `GatewayRuns.DirectRunsAreListed` | src/actions/hard_block.py:84-120 | in every reachable state, what ran without human and slot was a listed tool call or command that needs no approval, or a well-formed internal message; never an email |
| `GatewayRuns.AutoRunsAreGranted` | src/actions/auto_approve_policy.py:68-133 | in every reachable state, what ran on a slot was an email or Slack post granted to that destination, within the day's cap, and if asked for in chat then by a trusted sender in a direct Telegram message |
| `GatewayRuns.AuditIsExact` | src/actions/action_gateway.py:309-312 | every finished call has exactly one audit line: allow for a run, dry-run, skipped for a duplicate or a missing handler, pending for a queued one, reject for a rejection, deny for anything refused or failed; a call that raised for its kind leaves none; and an allow line exactly when its handler succeeded |
| `GatewayRuns.AllowMeansSucceeded` | src/actions/action_gateway.py:309-312 | an allow line only ever belongs to a call that succeeded |
| `GatewayRuns.RateIsBounded` | src/actions/action_gateway.py:448-461 | over a gateway's whole history any closed 60-second window admits at most ten mutations |
| `GatewayRuns.RefusedExactlyAtTheLimit` | src/actions/action_gateway.py:455-461 | the limit refuses exactly when ten admissions lie in the last 60 seconds |
| `ActionGateways.DedupStore.Claim` | src/actions/dedup_store.py:39-48 | inserts the key and says whether it was this call that did |
| `ActionGateways.DedupStore.Release` | src/actions/dedup_store.py:50-53 | removes exactly that key |
| `ActionGateways.ApprovalStore.Enqueue` | src/actions/approval_store.py:50-67 | appends one pending row under the next id |
| `ActionGateways.ApprovalStore.TransitionIfPending` | src/actions/approval_store.py:98-107 | changes the status exactly when the row is pending, and reports whether it did |
| `ActionGateways.ApprovalStore.SetStatus` | src/actions/approval_store.py:92-96 | overwrites the status whatever it was |
| `ActionGateways.ActionGateway.CheckRateLimit` | src/actions/action_gateway.py:448-461 | pops the old calls in place, then admits the call exactly when fewer than ten are left |
| `ActionGateways.ActionGateway.PassGuards` | src/actions/action_gateway.py:255-282 | hard-block for approved calls, kill switch, dry-run and rate limit, in this order, are one step of the protocol |
| `ActionGateways.ActionGateway.ReserveAndRun` | src/actions/action_gateway.py:284-312 | claim, handler, release and outcome are an undisturbed schedule of protocol steps |
| `ActionGateways.ActionGateway.ClaimDailySlot` | src/actions/auto_approve_policy.py:114-133 | the loop over the slots is a schedule of single claims that wins the first free slot or ends in the queue |
| `ActionGateways.ActionGateway.Submit` | src/actions/action_gateway.py:157-339 | `execute`, `execute_approved` and `enqueue_for_approval`: the exact outcome table, told from the state before the call. It ends executed if and only if it gets past the policy (directly because listed and asking for nobody, by approval, or on the lowest free slot of a grant), both switches are off, fewer than ten admissions lie in the window, its key is not held, it has a handler and the handler succeeds; dry-run, duplicate, no handler, queued, refused and failed likewise. A queued call adds exactly its redacted action to the queue. State and answer are those of a schedule of the protocol |
| `GatewayOutcomes.DecisionTold` | src/actions/action_gateway.py:190-339 | the policy decision and what follows it come to exactly the outcome the table tells for the action, the settings and the keys held |
| `GatewayOutcomes.ToldPast` | src/actions/action_gateway.py:255-312 | a call past the policy has one way past it, and its outcome is what switches, limit, key and handler decide, in this order |
| `ActionGateways.ActionGateway.ApproveCall` | src/actions/action_gateway.py:410-435 | `approve`: an id that is not pending is refused and changes nothing; otherwise the stored action meets the outcome table, and the row is approved or, exactly when the run failed or raised, pending as before. Winning the row, running and handing it back are a schedule of the protocol |
| `GatewayOutcomes.ApprovalSettles` | src/actions/action_gateway.py:410-435 | a won approval ends as the table tells for its stored action, with the row left approved or handed back accordingly |
| `ActionGateways.ActionGateway.RejectCall` | src/actions/action_gateway.py:437-446 | `reject`: sets the status whatever it was and nothing else of the queue, an unknown id is ignored; the write and its audit line are a schedule of the protocol |
| `ActionGateways.SoloReachable` | src/actions/action_gateway.py:190-312 | running one call for any number of undisturbed steps leads from reachable states of the protocol to reachable ones |
| `ActionGateways.ReachableSteady` | src/actions/action_gateway.py:157-446 | in every reachable state, while the clock does not go back, the outcome tables apply |
| `ActionGateways.AnswerReachable` | src/actions/action_gateway.py:157-446 | so the state after every public call of the gateway object is one the interleaving protocol can reach, and all its guarantees hold there |
| `StepGraph.StepRun.Consult` | src/agent/team_task_graph.py:471-496 | exactly the first proposals up to the remaining number are asked, each is either counted or failed, the advice is the non-empty answers in order, and the cost is that of the answers |
| `StepGraph.StepRun.FirstConsult` | src/agent/team_task_graph.py:463-496 | consulting before work happens only on the first pass, never takes the count past its limit, and returns exactly the non-empty answers to the questions asked |
| `StepGraph.StepRun.DoWork` | src/agent/team_task_graph.py:452-534 | the work is handed exactly the non-empty answers of the first consult, in order, and on the second pass the blocker's answer after them; a failed pass is marked with a non-empty error exactly when recovery is still open and re-raised otherwise; the costs add up |
| `StepGraph.StepRun.DoRecover` | src/agent/team_task_graph.py:571-619 | recovery asks at most one question about the very blocker, keeps its answer as the hint, clears the error, counts itself and the question, and keeps the books balanced |
| `StepGraph.StepRun.DoSelfCheck` | src/agent/team_task_graph.py:536-557 | grades the current text and flags failure exactly when it failed with the rework budget spent; it raises exactly when the check does |
| `StepGraph.StepRun.DoRework` | src/agent/team_task_graph.py:559-569 | replaces the text by the reworked version of the current one, counts the rework and adds its cost, None as zero |
| `StepGraph.StepRun.DoDeliver` | src/agent/team_task_graph.py:621-630 | the artifact is written unless the external gate says no, which ends in awaiting approval, or raises |
| `StepGraph.Squash` | src/agent/team_task_graph.py:522-523 | the squashed error has no newline and is empty exactly when the error is blank |
| `StepGraph.SquashWord` | src/agent/team_task_graph.py:522 | a text without white space is left as it is |
| `StepGraph.SquashJoin` | src/agent/team_task_graph.py:522 | white space, however much of it and of whatever kind, becomes one blank between the words on its sides and nothing at the ends |
| `StepGraph.WorkError` | src/agent/team_task_graph.py:522-523 | the recorded error is never empty, a single line, and the squashed text itself, cut to its first 200 characters, so a handled failure can never be routed as a success |
| `StepGraph.StepRun.RunNode` | src/agent/team_task_graph.py:635-655 | every edge of the graph decreases a rank and keeps the invariant; delivery is the only node that can end without a crash |
| `StepGraph.StepRun.Run` | src/agent/team_task_graph.py:452-655 | every run ends, within 2 work passes, 1 recovery, the rework budget and one more check than reworks, at most 2 counted consults; every question asked was counted or failed, and their number is settled by the world; it crashes only if something broke for good; at delivery the text is the work's draft after that many reworks, every earlier version failed its check, the last check was of this text and passed or left no rework, the failure flag is that grade's, the artifact is written exactly when done, and the cost is the sum of every successful call, failed first pass included |
| `StepGraph.ThirdAskIff` | src/agent/team_task_graph.py:475-496 | an attempt asks a third question exactly when one of two first questions fails, the work then fails and the recovery has a proposal |
| `StepGraph.ThreeAsksWitness` | src/agent/team_task_graph.py:586-612 | a world in which three questions are asked |
| `KnowledgeTemplate.DocumentsAreGood` | src/agent/knowledge_template.py:22-34 | the two shipped documents have distinct, marker-free keys and captions, which is what the theorems ask of a document |
| `KnowledgeTemplate.AcceptedIsCalm` | src/agent/knowledge_template.py:54-57 | a value the marker pattern does not match contains neither an opening nor a closing marker prefix |
| `KnowledgeTemplate.InnerValue` | src/agent/knowledge_template.py:120-123 | dropping the heading line gives back the value, also an empty one, one over several lines, or one that starts with "##" |
| `KnowledgeTemplate.RoundTrip` | src/agent/knowledge_template.py:68-124 | parsing a rendered page gives back exactly the stripped values, for every document of the kind and all marker-free values |
| `KnowledgeTemplate.PartsJoined` | src/agent/knowledge_template.py:77-92 | the list of parts joined by newlines is the page of sections |
| `KnowledgeTemplate.PageTrimmed` | src/agent/knowledge_template.py:92 | trimming the page and ending it with one newline changes nothing |
| `KnowledgeTemplate.RawIffMissing` | src/agent/knowledge_template.py:112-124 | a file is raw exactly when some field's marker pair is missing |
| `KnowledgeTemplate.Parse` | src/agent/knowledge_template.py:100-124 | the loop with early return equals its specification; a blank file has empty fields |
| `KnowledgeTemplate.ParseMarked` | src/agent/knowledge_template.py:112-124 | the loop stops raw at the first missing field and otherwise collects every field in order |
| `KnowledgeTemplate.Collected` | src/agent/knowledge_template.py:77-91 | the loop reports the first field whose value has a marker, or has built all parts and stripped values |
| `KnowledgeTemplate.Render` | src/agent/knowledge_template.py:68-97 | rendering succeeds exactly when no value matches the marker pattern, then parses back to the stripped values, and its closing self-check never fails |
| `Search.FindSpec` | src/agent/memory_mirror.py:72-73 | a found place is the first one, and nothing found means the part does not occur |
| `MarkedSections.EveryPieceFound` | src/agent/knowledge_template.py:113-117 | on a page of several sections the search for one section's markers finds that section, whatever surrounds it |
| `MemoryMirror.DedupeLoop` | src/agent/memory_mirror.py:92-100 | the loop over a set and a list equals its specification |
| `MemoryMirror.DedupeSpec` | src/agent/memory_mirror.py:92-100 | no duplicates, and exactly the given facts |
| `MemoryMirror.DedupeFixed` | src/agent/memory_mirror.py:92-100 | a list without duplicates is left alone |
| `MemoryMirror.DedupeInOrder` | src/agent/memory_mirror.py:92-100 | the distinct facts stand in the order in which they are first mentioned |
| `MemoryMirror.KeptSpec` | src/agent/memory_mirror.py:37-38 | the kept facts are duplicate-free, all old or new, at most a positive cap, and all of them when they fit |
| `MemoryMirror.DroppedAreOldest` | src/agent/memory_mirror.py:37-38 | a fact the cap drops was first mentioned before every fact that is kept |
| `MemoryMirror.KeptAgain` | src/agent/memory_mirror.py:37-38 | a rewrite without new facts keeps exactly the same facts |
| `MemoryMirror.RepeatIff` | src/agent/memory_mirror.py:37-38 | giving the same facts again changes nothing exactly when the cap had dropped none of them |
| `MemoryMirror.RewriteRepeatIff` | src/agent/memory_mirror.py:26-45 | writing the same facts into the file a second time changes no byte of it exactly when the cap had dropped none of them |
| `MemoryMirror.CapDropsRepeat` | src/agent/memory_mirror.py:37-38 | a concrete repeat that does change the section: cap one, two facts |
| `MemoryMirror.LinesOfJoin` | src/agent/memory_mirror.py:83 | splitting joined lines gives the lines back |
| `MemoryMirror.SplitBlock` | src/agent/memory_mirror.py:63-84 | a written section splits into the text above, exactly its facts, and the text below |
| `MemoryMirror.PairIsGood` | src/agent/memory_mirror.py:63-84 | whatever file is split, the text above and the facts are free of markers |
| `MemoryMirror.RewriteSplits` | src/agent/memory_mirror.py:26-45 | rewriting a file with a section keeps the text on both sides and leaves exactly the kept facts in the section |
| `MemoryMirror.SidesKeptIff` | src/agent/memory_mirror.py:81-82 | a file with a section keeps every byte above and below it exactly when the section starts a line |
| `MemoryMirror.NewlineInserted` | src/agent/memory_mirror.py:81 | a file whose section follows text on the same line: the rewrite inserts a newline above it |
| `MemoryMirror.FreshRewriteSplits` | src/agent/memory_mirror.py:40-44 | a file without a section gets one below its text with exactly the kept facts |
| `MemoryMirror.RewriteAgain` | src/agent/memory_mirror.py:26-45 | a further rewrite without new facts is the identity |
| `MemoryMirror.PlainTextIsFree` | src/agent/memory_mirror.py:40-44 | a file without markers meets the condition of the fresh rewrite |
| `MemoryMirror.BlockIsOnlyPair` | src/agent/memory_mirror.py:39-45 | a section is the only marker pair of the file exactly when the text below has no marker |
| `MemoryMirror.OnePairIff` | src/agent/memory_mirror.py:29-34 | after rewriting in place there is exactly one marker pair exactly when nothing below the section contained a marker |
| `MemoryMirror.FreshOnePairIff` | src/agent/memory_mirror.py:40-44 | after a rebuild there is exactly one marker pair exactly when every line of the file that contains a marker is, blanks aside, just that marker |
| `MemoryMirror.CleanedOnePairIff` | src/agent/memory_mirror.py:87-89 | which is when the line clean-up leaves no marker behind |
| `MemoryMirror.InlineMarkerSurvives` | src/agent/memory_mirror.py:87-89 | a concrete file for which the promised single pair fails |
| `MemoryMirror.HumanTextKeptIff` | src/agent/memory_mirror.py:40-44 | a file without markers is, byte for byte, the beginning of the rewritten file exactly when its line breaks are plain newlines and it is empty or has a last line with at most two of them below it |
| `MemoryMirror.AgentIsProper` | src/agent/memory_mirror.py:21-22 | the shipped marker pair has the form the theorems ask for |
| `RunEvents.RecentEventsPerKind` | src/runtime/agent_state_reader.py:118-148 | the counting loop over the reversed tail keeps exactly the newest ten events of every kind, newest first |
| `RunEvents.NewestComesFirst` | src/runtime/agent_state_reader.py:127-141 | what is read of the file is its readable lines, the last line first |
| `RunEvents.FailingKinds` | src/runtime/agent_state_reader.py:239-259 | the loop over streaks and broken kinds computes the specified list, in order |
| `RunEvents.FailingListSpec` | src/runtime/agent_state_reader.py:239-259 | a kind is on the list exactly when it is a report kind whose newest three events all failed |
| `RunEvents.FailingListDistinct` | src/runtime/agent_state_reader.py:255-256 | no kind is listed twice |
| `RunEvents.FailingInOrder` | src/runtime/agent_state_reader.py:239-259 | the failing kinds stand in the order in which, going back from the newest event, their third failure is met |
| `RunEvents.SampleOfKind` | src/runtime/agent_state_reader.py:132-148 | the sample's events of a kind are the kind's first ten |
| `RunEvents.SampleKeepsAlerts` | src/runtime/agent_state_reader.py:118-148 | the ordered list of failing kinds is the same on the sample as on all events |
| `RunEvents.LastRunByKind` | src/runtime/agent_state_reader.py:262-272 | the map holds, for every kind, its newest readable timestamp and nothing else |
| `RunEvents.SampleKeepsLastRunIff` | src/runtime/agent_state_reader.py:262-272 | the last run of a kind is the same on the sample exactly when the kind has no readable timestamp or one among its newest ten events |
| `RunEvents.SampledMapIff` | src/runtime/agent_state_reader.py:118-148 | the whole map of last runs is the same on the sample exactly when that holds of every kind |
| `RunEvents.LastRunLost` | src/runtime/agent_state_reader.py:262-272 | eleven events of a kind, only the oldest with a readable timestamp: the kind has a last run, and none on the sample |
| `Budget.RoundClose` | src/llm/budget_tracker.py:60 | one write moves the total by at most half a millionth |
| `Budget.RoundMonotone` | src/llm/budget_tracker.py:60 | rounding never reverses two totals |
| `Budget.RoundStored` | src/llm/budget_tracker.py:57-61 | what is written is a whole number of millionths |
| `Budget.RoundFixed` | src/llm/budget_tracker.py:57-61 | writing a stored total again leaves it alone |
| `Budget.TotalNeverDrops` | src/llm/budget_tracker.py:116-129 | recording a cost never lowers the month's total, in spite of the rounding |
| `Budget.TotalIsClose` | src/llm/budget_tracker.py:116-129 | after n recorded costs the total is within n half-millionths of their exact sum |
| `Budget.OverrunIsOneCall` | src/llm/budget_tracker.py:92-129 | if every call started under the cap, the total exceeds it by at most the last call's cost and one rounding step |
| `Budget.BlockedIff` | src/llm/budget_tracker.py:98-106 | the quotient test blocks exactly when the cap is positive and reached |
| `Budget.BudgetTracker.CheckAllowed` | src/llm/budget_tracker.py:92-114 | a call is let through exactly when there is no positive cap or the month's total is below it |
| `Budget.BudgetTracker.RecordCost` | src/llm/budget_tracker.py:116-129 | adds, rounds and rewrites one month's total; an unknown cost records nothing, a negative one is refused; every month's stored total stays the rounded total of exactly the costs recorded in that month, so the three theorems on such totals hold of the files |
| `Budget.StillBalanced` | src/llm/budget_tracker.py:116-129 | recording keeps every month's file equal to the rounded total of the costs recorded in that month |
| `Budget.RecordedMoves` | src/llm/budget_tracker.py:116-129 | recording a cost moves that month's total up by it, to within half a millionth and never down, and no other month's |
| `LlmClients.CallWithRetry` | src/llm/client.py:143-176 | at most three requests, each but the last a retryable failure, and the result is that of the recursive specification |
| `LlmClients.CalledIs` | src/llm/client.py:143-176 | a model's answer is its first response that is no timeout, connection error or rate limit; three of those in a row exhaust it |
| `LlmClients.HandsOverIff` | src/llm/fallback_policy.py:38-46 | a model hands over to the next exactly when its retries ran out, or they ended with a status other than 401 and 403, or with a blank answer whose cost can be recorded |
| `LlmClients.ChargeIs` | src/llm/client.py:115-124 | an answer's known cost is charged to the month of recording whether the answer is used or blank; a model that only fails is charged nothing |
| `LlmClients.LlmClient.Complete` | src/llm/client.py:77-141 | the chain walk equals its recursive specification on answer, error and stored totals; the log of its calls to models is exactly the trail; exactly what those calls cost is put on record, so the budget files stay the totals of all costs ever recorded; `fallback_from` is exactly the chain before the serving model, and the loop never falls through |
| `LlmClients.ServedByFirst` | src/llm/client.py:100-137 | whoever serves is the first model that is neither skipped nor stopped at, and its text is returned |
| `LlmClients.FirstServes` | src/llm/client.py:100-137 | if the budget never blocks, the first such model does serve |
| `LlmClients.WalkFromAttempt` | src/llm/client.py:100-124 | a walk that has reached a model goes on from there with the totals the skipped models left |
| `LlmClients.AttemptsStartUnderCap` | src/llm/client.py:100-101 | the trail of a completion holds exactly the models that every earlier model handed over to and that passed the gate, in chain order, each with the month's stored total when it was asked, and that total is below a positive cap |
| `LlmClients.ChargesGated` | src/llm/client.py:100-116 | if every charge on record was made while the month's total was below the cap, so is every charge a completion within that month adds: the overrun theorem holds of the record along any number of completions |
| `LlmClients.IneligibleStops` | src/llm/fallback_policy.py:38-46 | an error another model cannot help with ends the walk at once with that error |
| `LlmClients.ChainExhausted` | src/llm/client.py:139-141 | at the end of the chain the last model's own error or blank answer is the result |
| `LlmClients.WalkOverrun` | src/llm/client.py:100-116 | a whole walk leaves the total above the cap by at most its dearest call and one rounding step |

## Left out

- Language-model calls, prompts and reply parsing: a reply is a parameter, parsed or not.
- Transports (MCP, `gh`, SMTP, Telegram, Slack), the web UI and report rendering: foreign or straight-line code.
- SQLite, file and JSON errors, corrupt budget files, `write_memory_file`'s atomic replace: tables and files are values with atomic operations.
- Secret patterns, attachment confinement and the `gh` argument checks: each is an arbitrary predicate of the action; only the order of the layers is modelled.
- `redact`: an arbitrary function of the action.
- Room events, escalations, warnings, log lines and message texts.
- SHA-256: the plan hash is identified with the hashed content, an action's digest is any function into strings of 64 hexadecimal digits.
- Floating point: costs and clocks are reals; rounding to six decimals is exact half-even rounding.
- Lower-casing is modelled for ASCII letters only.
- Leases, timestamps and process liveness: answers of the environment, so nothing is proved about lease timing.
- Expiry of amendment drafts by age: a draft may end at any time.
- A step's acceptance text and the handoff text assembled for workers and colleagues: which answers the work is handed is modelled, the labels in front of them are not.
- `mcp_session_pool.py`: its guarantees depend on the scheduler of the asynchronous runtime.
- Inbox polling, operations chat, packs, profiles and configuration.
- Standstill.NextTickMoves: a tick reads and writes as one atomic step; single writes that interleave with a tick's own are covered by `PlanRuns.EveryRunSound` for the plan, not for progress.
- Progress.EveryLiveRunSound: a tick reads its task in one piece; what a reading in two pieces can see is stated by `PlanRuns.TornReadInRunIff`.
- Completion.FaultFreeTaskCompletes: the bound on the number of ticks is for lockstep rounds, in which what a tick started is delivered before the next one; any fair order is `FairCompletion.FairRunCompletes`, without a bound.
- FairCompletion.FairRunCompletes: like the lockstep result for plans without requested reviews, with workers that succeed and a staffed roster; what bounds reviews is stated separately by `ReviewRounds`. The budget asks for one step's share more than the projected cost, so that dispatch never defers while nothing runs.
- GatewayRuns.EveryRunSafe: runs start from empty tables, and the rate check of one gateway object is one atomic step.
- TeamTaskStore.Store.SetDraftPlan: an unknown task is an error here; the code would write rows no task owns.
- TeamTaskStore.Store.InsertStep: an unknown task is an error here; the code would insert a row no task owns.
- TeamTaskStore.Store.SetAmendmentDraft: an unknown task gets no draft here; the code would write one no confirm can use.
- Budget.OverrunIsOneCall: one writer; concurrent writers of the budget file can lose updates.
- LlmClients.WalkOverrun: for a walk whose checks and recordings fall into one month.
