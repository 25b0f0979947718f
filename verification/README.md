# Verified model of the strategy builder

This project models the stateful core of a trading-strategy builder in Dafny and proves what its parts promise:
the streaming evaluator of rule graphs and the validator in front of it, the execution lane that queues and plans
commands, backtest jobs, rate limiters and the token cache, equity metrics and the deterministic fixtures, the graph
editor's conversion, and the strategy, event, workflow and artifact stores.

Every service that changes state is a class whose methods are proved equal to a step of a small state machine; the
theorems are then about all runs of that machine. Code that only computes is a function with lemmas.

| files | part |
|---|---|
| `Prelude`, `Text`, `Identifiers` | optional values, insertion-ordered dictionaries, strings, zero-padded identifiers |
| `IndicatorMath`, `RuleSyntax`, `RuleSemantics`, `RuleEvaluator`, `RuleInvariance`, `RuleValidation` | rule graphs: batch meaning and its laws, streaming evaluator, invariances, validator |
| `LaneModels`, `LaneGates`, `LaneSpec`, `LaneRuns`, `LaneIds`, `LaneLaws`, `LaneWorkers`, `LaneRaces`, `LaneService` | execution lane: live gates, state machine, runs, command ids, replies and gates field by field, interleaved threads and their races, the service object |
| `BacktestJobs`, `BacktestLaws`, `BacktestScanning`, `BacktestWorker` | backtest jobs: two indexes, the scanning form, the worker |
| `TokenBucket`, `SlidingLog`, `FixedWindow`, `TokenCache` | limiters and the token cache |
| `Equity`, `Fixtures` | drawdown and returns, generated market data |
| `GraphSpec`, `GraphRoundTrip`, `GraphLaws` | graph editor to strategy spec and back |
| `StrategyRepository`, `RuntimeEvents`, `WorkflowProjection`, `WorkflowService`, `WorkflowRuns`, `WorkflowRestarts`, `WorkflowLaws`, `WorkflowObject`, `Artifacts`, `ArtifactStore` | versions, event streams, the workflow and its read model, artifacts and promotion evidence |

## Conventions

- Floating-point numbers are `real`. Clock readings are arguments; where a bound needs it, they do not decrease.
- A Python dictionary is a key sequence plus a map, because several results depend on insertion order.
- An identifier made by hashing is a datatype constructor over the hashed material: hashing is taken to be injective.
- An exception is a `None`, an error constructor or a refused step; the state it leaves behind is part of the contract.
- Each operation of the execution lane's service is one atomic event, except the claim of a thread that starts a session: `claim_command`
  checks and writes without a lock, so `LaneWorkers` makes the check and the write two events. The planning worker's claims stay single
  operations: all that a late write of theirs could store is a CLAIMED copy, which is never queued and starts nothing.
- A fresh run of the lane is one in which every command that an enqueue stores has an unused id and status QUEUED. Runs whose callers
  supply neither are always fresh (`LaneIds.OrdinaryRunsAreFresh`, `LaneRaces.OrdinaryEventsAreFresh`); supplied ids may be any string.
- Artifact payloads and metadata have string keys and string values. In the code a nested payload with integer keys is sorted by number when it is
  put and by text when it is read, so its checksum can change.
- Where the source promises more than it does, the code is modelled as it is. For each of these there is a failing input and a statement
  of exactly when the promise holds:
  - Live gates: `is_live_enabled` and the plan's reasons differ exactly on live-enabled profiles without a venue binding
    (`LaneGates.LiveGatesDisagree`, `LaneGates.UnboundLiveProfile`), which the profile validator excludes. The command model lower-cases
    the risk status and the plan does not, so "APPROVED" is accepted and then blocked (`LaneGates.ReadyIffExactlyApproved`,
    `LaneGates.UpperCaseApprovalIsBlocked`).
  - A caller-supplied command id can take a command away from its key (`LaneIds.OwnershipIff`, `LaneIds.SuppliedIdLosesACommand`) and put a
    claimed command back in the queue (`LaneIds.ClaimedOnceIff`, `LaneIds.SuppliedIdIsClaimedTwice`).
  - `RedisRateLimiter` is documented as a sliding window but counts in fixed windows. The sliding promise holds for an interval exactly when
    the limiter fails closed and the interval lies in one aligned window, or the limit is zero (`FixedWindow.SlidingPromiseIff`); twice
    the limit is reached for every configuration (`FixedWindow.TwiceTheLimitIsReached`). The docstring of `is_allowed` also says it fails open
    by default; the default is to fail closed.
  - `save` can land on an explicitly saved strategy and then reports another spec's version id
    (`StrategyRepository.SaveIsFreshIffNotSavedExplicitly`, `StrategyRepository.SaveCollides`).
  - A reused result id can leave a lineage shown as completed without a stored result (`WorkflowRuns.AgreementIff`,
    `WorkflowRuns.ReusedResultIdLosesAResult`).
  - A thread can check a command before another one writes its claim, and start the session a second time (`LaneWorkers.StartsOnceIff`,
    `LaneRaces.ClaimsOnceIff`, `LaneRaces.RaceFromTheStart`).
  - A second workflow service on a durable repository counts from 1 again and overwrites jobs and versions. Lineage and version still
    agree; a result agrees with its job on the project, and a suggestion with its version on thread and cycle, exactly as long as no
    later creation of another project, thread or cycle takes the number over (`WorkflowRestarts.ResultsReferThroughoutIff`,
    `WorkflowRestarts.SuggestionsReferThroughoutIff`, `WorkflowRestarts.SecondServiceTakesAResult`,
    `WorkflowRestarts.SecondServiceTakesASuggestion`). Ids of a creation are unused exactly when no creation was accepted at that count
    before (`WorkflowRestarts.NumberUsedIff`).
  - The graph round trip renames some nodes (`GraphRoundTrip.RoundTripIff`, `GraphRoundTrip.DashedNodeIsRenamed`).

## Model

| member | source | states |
|---|---|---|
| `IndicatorMath.EmaStep` | packages/nautilus_rule_graph/evaluator.py:29-33 | the incremental EMA update of a history equals the closed-form weighted sum of the extended history |
| `IndicatorMath.EmaWeightsSumToOne` | packages/nautilus_rule_graph/evaluator.py:29-33 | the weights of the closed form add up to 1, for every smoothing factor and length |
| `IndicatorMath.MeanAge` | packages/nautilus_rule_graph/evaluator.py:29-33 | twice the mean age of n prices under the closed-form weights is (period - 1)(1 - (1 - alpha)^(n - 1)), which fixes alpha = 2 / (period + 1) |
| `IndicatorMath.EmaOfPeriodOne` | packages/nautilus_rule_graph/evaluator.py:29-33 | the average of period 1 is the last price |
| `IndicatorMath.SmaSlides` | packages/nautilus_rule_graph/evaluator.py:34-36 | a full window trades its oldest price for the new one; until then the new price joins |
| `IndicatorMath.RsiFormula` | packages/nautilus_rule_graph/evaluator.py:49-54 | the code's arithmetic on average gain and loss equals 100 G / (G + L), and 50 when both are zero |
| `IndicatorMath.Rsi` | packages/nautilus_rule_graph/evaluator.py:37-54 | RSI of any history lies in [0, 100] |
| `IndicatorMath.RsiExtremes` | packages/nautilus_rule_graph/evaluator.py:37-54 | RSI is 100 iff the window rises and never falls, 0 iff it falls and never rises, and 50 when it does neither |
| `RuleEvaluator.IndicatorState.Update` | packages/nautilus_rule_graph/evaluator.py:22-59 | one in-place step on the bounded windows returns the batch value (mean of the last prices, closed-form EMA, RSI share, or none) of the whole history |
| `RuleEvaluator.IndicatorState.UpdateEma` | packages/nautilus_rule_graph/evaluator.py:29-33 | the stored average becomes the closed-form EMA of the extended history |
| `RuleEvaluator.IndicatorState.UpdateRsi` | packages/nautilus_rule_graph/evaluator.py:37-54 | the trimmed gain and loss windows yield the RSI of the extended history |
| `RuleEvaluator.Trim` | packages/nautilus_rule_graph/evaluator.py:26-27 | popping from the front leaves exactly the last `period` elements |
| `RuleEvaluator.RuleGraphEvaluator.EvaluateClause` | packages/nautilus_rule_graph/evaluator.py:124-152 | the clause has its batch outcome, missing operands included, and one evaluation is counted |
| `RuleEvaluator.RuleGraphEvaluator.EvaluateRuleBlock` | packages/nautilus_rule_graph/evaluator.py:115-122 | a short-circuited block has its batch outcome and adds its batch cost |
| `RuleEvaluator.RuleGraphEvaluator.UpdatePrice` | packages/nautilus_rule_graph/evaluator.py:79-92 | after each price the evidence is the batch evidence of the history, or the step raises exactly when the batch form does |
| `RuleEvaluator.EvaluateStrategySpecPrices` | packages/nautilus_rule_graph/evaluator.py:162-166 | for every well-formed spec and price list the streaming evaluation equals the batch evaluation |
| `RuleSemantics.BlockMeaning` | packages/nautilus_rule_graph/evaluator.py:115-122 | `all` is the conjunction, `any` the disjunction of the clauses |
| `RuleSemantics.BlockCostIsShortestDecisivePrefix` | packages/nautilus_rule_graph/evaluator.py:115-129 | the clauses evaluated are the shortest prefix that settles the block |
| `RuleSemantics.TrueStepsAppend` | packages/nautilus_rule_graph/evaluator.py:88-91 | the set of steps at which a rule was true grows by the new step iff the rule is true after it |
| `RuleSemantics.IndicatorsStart` | packages/nautilus_rule_graph/evaluator.py:22-59 | the first price is its own average, the index starts at 50, and nothing has a value before it |
| `RuleSemantics.IndicatorsMove` | packages/nautilus_rule_graph/evaluator.py:22-59 | how each supported type follows a new price: by 2 / (period + 1) of the distance, by sliding its window, or by rises and falls; no other type has a value |
| `RuleSemantics.OperatorLaws` | packages/nautilus_rule_graph/evaluator.py:142-151 | on resolved operands gt compares values; lt is gt swapped, gte its negation, lte the negation of gt, eq both |
| `RuleSemantics.CrossingLaws` | packages/nautilus_rule_graph/evaluator.py:134-141 | a crossing is a comparison that holds now and whose opposite held one observation earlier |
| `RuleSemantics.UnresolvedNeverHolds` | packages/nautilus_rule_graph/evaluator.py:132-141 | no operator holds of an unresolved operand, and no crossing of one unresolved before |
| `RuleSemantics.PriceNamesResolve` | packages/nautilus_rule_graph/evaluator.py:82-86 | each of the seven price names that no indicator hides stands for the last price |
| `RuleSemantics.OtherOperandsResolve` | packages/nautilus_rule_graph/evaluator.py:154-159 | numbers stand for themselves, indicator names for their indicator, other names for nothing |
| `RuleSemantics.ClauseMeaning` | packages/nautilus_rule_graph/evaluator.py:124-152 | a clause compares its first operand with its second, and raises on fewer than two |
| `RuleSemantics.EvidenceMeaning` | packages/nautilus_rule_graph/evaluator.py:97-113 | the evidence counts observations and, for each rule, the observations after which its block is true |
| `RuleSemantics.SingleClauseCost` | packages/nautilus_rule_graph/evaluator.py:129-129 | with one clause a rule, evaluations are observations times rules |
| `RuleSyntax.SingleOperator` | packages/strategy_spec/models.py:59-89 | a well-formed clause has one operator, and evaluation uses that one |
| `RuleInvariance.EvidenceDependsOnOutcomes` | packages/nautilus_rule_graph/evaluator.py:79-113 | two histories with the same clause outcomes at every step yield the same evidence |
| `RuleInvariance.EvidenceRescaled` | packages/nautilus_rule_graph/evaluator.py:22-59 | for dimensionally consistent specs, replacing every price p by a p + b with a > 0 changes nothing in the evidence |
| `RuleInvariance.RsiMirrored` | packages/nautilus_rule_graph/evaluator.py:37-54 | replacing prices p by c - p turns RSI into 100 - RSI |
| `RuleInvariance.CrossingsSwap` | packages/nautilus_rule_graph/evaluator.py:134-141 | `crossed_above` equals `crossed_below` with the operands swapped |
| `RuleInvariance.CrossedAboveNeedsAChange` | packages/nautilus_rule_graph/evaluator.py:134-141 | `crossed_above` fires neither on the first observation nor on two in a row |
| `RuleInvariance.CrossingsTelescope` | packages/nautilus_rule_graph/evaluator.py:134-141 | without ties, crossings above less crossings below are the change of side between first and last observation |
| `RuleInvariance.CrossingsBalance` | packages/nautilus_rule_graph/evaluator.py:134-141 | without ties, the two crossing counts differ by at most 1 |
| `RuleValidation.ValidateRuleReferences` | packages/strategy_validation/validators.py:101-131 | the errors reported are exactly the defects there are |
| `RuleValidation.CleanMeaning` | packages/strategy_validation/validators.py:101-131 | no error is reported iff every clause has two operands, each a number or a known name |
| `RuleValidation.ValidatedNeverRaises` | packages/strategy_validation/validators.py:101-131 | a validated spec evaluates on every price sequence without indexing past an operand list |
| `RuleValidation.ValidatedOperandsAreBound` | packages/strategy_validation/validators.py:101-131 | after the first price every operand name is bound, and unresolved iff its indicator is of an unsupported type |
| `RuleValidation.UnsupportedSilencesAll` | packages/nautilus_rule_graph/evaluator.py:56-59 | an `all` block naming an unsupported indicator is false after every history |
| `LaneModels.ValidateProfile` | packages/execution_lane/models.py:86-142 | the accumulating validator accepts exactly the valid profiles; a rejection names the blank half of the binding, or every failed gate of a LIVE profile that asks for authority, checksum length included, or no gate |
| `LaneModels.ValidateCommand` | packages/execution_lane/models.py:229-266 | the accumulating validator accepts exactly the valid commands; a rejection of a LIVE command names every failed gate |
| `LaneLaws.LiveProfileValidIff` | packages/execution_lane/models.py:86-142 | a LIVE profile is valid iff asking for authority means being live-enabled under a 64-character checksum, with no live controls otherwise and no enabled profile without a venue |
| `LaneLaws.PaperProfileValidIff` | packages/execution_lane/models.py:86-105 | a PAPER profile is valid iff it asks for no authority and, when enabled, is bound and allowed to paper trade |
| `LaneLaws.LiveEnabledIff` | packages/execution_lane/models.py:144-164 | live-enabled, field by field |
| `LaneLaws.CommandValidIff` | packages/execution_lane/models.py:229-266 | a command is valid iff it is filled and clean, and asking for any authority means asking for all of it with every evidence field and an approved risk decision |
| `LaneLaws.MissingCommandGatesAreReasons` | packages/execution_lane/nautilus_runtime.py:195-228 | the gates a rejected command is told are ones its plan would block on |
| `LaneModels.ProfileBlockedReasons` | packages/execution_lane/nautilus_runtime.py:145-192 | the reasons appended are exactly the failed profile gates |
| `LaneModels.CommandBlockedReasons` | packages/execution_lane/nautilus_runtime.py:195-228 | the reasons appended are exactly the failed command gates |
| `LaneLaws.ProfileReasonsName` | packages/execution_lane/nautilus_runtime.py:145-192 | each profile reason stands for its own field |
| `LaneLaws.LiveFieldNames` | packages/execution_lane/nautilus_runtime.py:177-189 | each blank evidence field of a LIVE profile is named by its own gate, and nothing else is |
| `LaneLaws.CommandReasonsName` | packages/execution_lane/nautilus_runtime.py:195-228 | each command reason stands for its own field; PAPER asks nothing |
| `LaneLaws.EvidenceReasonsName` | packages/execution_lane/nautilus_runtime.py:195-228 | each evidence reason stands for a field that is blank or differs from the profile |
| `LaneLaws.PlanRefusedIff` | packages/execution_lane/nautilus_runtime.py:130-142 | a plan is refused iff the command names another tenant, project, profile, mode, adapter or venue |
| `LaneLaws.PlanFields` | packages/execution_lane/nautilus_runtime.py:80-127 | a ready plan is unblocked, carries the slot and, when LIVE, all authority; any other carries none |
| `LaneLaws.AdmissionIff` | packages/execution_lane/service.py:252-277 | a profile admits its command iff the plan would not be refused, accounts do not clash, and live authority finds a live-enabled profile with the same evidence |
| `LaneModels.BuildTradingNodeRuntimePlan` | packages/execution_lane/nautilus_runtime.py:68-142 | the plan, or the refusal for a command of another scope, is the one the gate sets determine |
| `LaneGates.LiveReasons` | packages/execution_lane/nautilus_runtime.py:145-192 | a LIVE profile has no blocked reason iff it is live-enabled and bound to a venue |
| `LaneGates.LiveGatesAgree` | packages/execution_lane/models.py:86-164 | for validated LIVE profiles, asking for live authority, `is_live_enabled` and an empty list of reasons coincide |
| `LaneGates.LiveGatesDisagree` | packages/execution_lane/models.py:144-164 | without validation they differ exactly on live-enabled profiles with no venue binding |
| `LaneGates.UnboundLiveProfile` | packages/execution_lane/models.py:144-164 | a concrete live-enabled profile without a venue: its plan is blocked and the validator rejects it |
| `LaneGates.MissingGatesAreBlockedReasons` | packages/execution_lane/nautilus_runtime.py:145-192 | the gates that a rejection names are the reasons the plan would block on, up to the checksum length and the binding of a disabled profile |
| `LaneGates.PaperReadyIffEnabled` | packages/execution_lane/nautilus_runtime.py:80-95 | a validated PAPER profile plans READY iff it is enabled |
| `LaneGates.AcceptedCommandReasons` | packages/execution_lane/nautilus_runtime.py:195-228 | a command accepted against an unchanged profile fails at most the exact risk-status gate |
| `LaneGates.ReadyIffExactlyApproved` | packages/execution_lane/nautilus_runtime.py:195-228 | an accepted live-authority command plans READY, with order authority, iff its risk status is exactly "approved" |
| `LaneGates.UpperCaseApprovalIsBlocked` | packages/execution_lane/models.py:229-266 | a concrete command with status "APPROVED" is accepted and its plan is blocked |
| `LaneGates.PlanAuthorityNeedsEveryGate` | packages/execution_lane/nautilus_runtime.py:80-127 | whatever it is built from, a plan with any authority flag has all of them and has passed every profile and command gate |
| `LaneRuns.RunKeepsInvariant` | packages/execution_lane/service.py:49-165 | every fresh run keeps commands, index, profiles and stores consistent |
| `LaneRuns.EveryKeyOwnsOneCommand` | packages/execution_lane/service.py:84-95 | after any fresh run each (profile, idempotency key) owns exactly one command, and every command has its key |
| `LaneRuns.ClaimedAtMostOnce` | packages/execution_lane/service.py:111-129 | no command is claimed twice in any fresh run, a queued one was never claimed, and the store lists commands in the order of acceptance |
| `LaneRuns.ClaimNextTakesTheEarliest` | packages/execution_lane/service.py:111-115 | after any fresh run `claim_next` takes the queued command of the profile accepted first, and fails only when there is none |
| `LaneRuns.CommandsAdvance` | packages/execution_lane/service.py:117-148 | in any fresh run a stored command stays, keeps its content, and never returns to QUEUED |
| `LaneRuns.SnapshotCountsAddUp` | packages/execution_lane/service.py:186-206 | after any fresh run and for every scope, queued + claimed + reported is the number of accepted commands in scope |
| `LaneRuns.LiveCommandsWereVetted` | packages/execution_lane/service.py:252-277 | after any fresh run a stored command with any live flag has all three, is LIVE, and matched a live-enabled profile on risk, slot and every evidence reference when it was enqueued |
| `LaneRuns.LaterPlansRecheckTheProfile` | packages/execution_lane/service.py:67-76 | after any fresh run, a plan carries order authority only if the profile stored now passes every gate and the profile at enqueue time did too, both with the command's evidence |
| `LaneIds.OrdinaryRunsAreFresh` | packages/execution_lane/models.py:202-220 | when no caller supplies an id or a status, the ids derived are always unused |
| `LaneIds.OwnershipKeptIffIdFree` | packages/execution_lane/service.py:84-95 | an enqueue keeps key ownership iff it does not store a command under an id that another key owns |
| `LaneIds.OwnershipIff` | packages/execution_lane/service.py:84-95 | for any run and any ids, every key owns its command throughout iff no operation stored a command under an id that another key owned |
| `LaneIds.ClaimedOnceIff` | packages/execution_lane/service.py:84-129 | for any run and any ids, at every point the next claim of every command is its first iff no enqueue stored a queued command under an id claimed before |
| `LaneIds.SuppliedIdIsClaimedTwice` | packages/execution_lane/service.py:84-129 | a concrete run after which a command can be claimed a second time |
| `LaneIds.SuppliedIdLosesACommand` | packages/execution_lane/models.py:202-220 | two enqueues with one supplied id: two keys, one stored command |
| `LaneService.ExecutionLaneService.RegisterProfile` | packages/execution_lane/service.py:49-53 | registers exactly the valid and clean profiles whose slot is accepted |
| `LaneService.ExecutionLaneService.EnqueueCommand` | packages/execution_lane/service.py:84-95 | idempotent per key; otherwise admits a valid and clean command that matches its profile, and refuses any other |
| `LaneLaws.EnqueueReply` | packages/execution_lane/service.py:84-95 | after any fresh run the reply is empty iff the body is not admissible, and otherwise the command stored under its own id and the payload's key; a known key changes nothing |
| `LaneLaws.RepliesShareTheCommand` | packages/execution_lane/service.py:90-92 | two accepted enqueues of one key reply with one command, whatever happens in between |
| `LaneLaws.DerivedIdsDiffer` | packages/execution_lane/models.py:202-220 | derived ids are equal iff all eight hashed fields are |
| `LaneLaws.RegisterReply` | packages/execution_lane/service.py:49-53 | a registered profile replaces only the one under its own id |
| `LaneLaws.ClaimReply` | packages/execution_lane/service.py:117-129 | a claim records worker and time in a queued command and changes nothing else |
| `LaneLaws.ReportReply` | packages/execution_lane/service.py:131-148 | a report carries what was given and for the rest the command's fields; it is refused iff one is empty or the payload is not clean |
| `LaneLaws.NewestIsKept` | packages/execution_lane/service.py:155-165 | eviction keeps the entry stored last, unless the store may hold nothing |
| `LaneLaws.ScopesIff` | packages/execution_lane/service.py:98-115 | which commands a snapshot and a claim by profile look at |
| `LaneService.ExecutionLaneService.ClaimCommand` | packages/execution_lane/service.py:117-129 | claims a queued command and nothing else |
| `LaneService.ExecutionLaneService.ClaimNext` | packages/execution_lane/service.py:111-115 | the scan claims the first queued command of the profile in insertion order |
| `LaneService.ExecutionLaneService.RecordReport` | packages/execution_lane/service.py:131-148 | fills the fields the caller left out from the command, refuses a report with an empty field or an unclean payload, stores it, evicts the oldest beyond the capacity, and marks the command |
| `LaneService.WorkerReportAccepted` | packages/execution_lane/models.py:269-306 | a worker's report is accepted iff its payload is clean and the order intent does not name an empty instrument |
| `LaneService.ExecutionLaneService.RecordSession` | packages/execution_lane/service.py:150-153 | stores the session and evicts the oldest beyond the capacity |
| `LaneService.ExecutionLaneService.EvictReportsIfNeeded` | packages/execution_lane/service.py:155-159 | the loop leaves exactly the newest reports |
| `LaneService.ExecutionLaneService.Snapshot` | packages/execution_lane/service.py:186-206 | the counts are those of the commands in scope |
| `LaneService.RunWorkerOnce` | services/workers/execution_lane_worker.py:17-46 | claim, plan and report in one pass; a profile that no longer fits, or a refused report, leaves the command claimed without a report |
| `LaneService.StartPaperSession` | services/workers/execution_lane_worker.py:50-106 | an undisturbed start is a run of the thread's protocol events, starts at most this one session, records the runner's status, and reports iff the report is valid |
| `LaneWorkers.StartsOnceIff` | services/workers/execution_lane_worker.py:78-106 | for any events, any ids and any interleaving of checks, writes and launches: at every point any two launches leave the started sessions distinct, iff no thread wrote a claim on a command that another one held or that had been started |
| `LaneRaces.ClaimsOnceIff` | packages/execution_lane/service.py:117-129 | in every fresh run each command is claimed at most once throughout, iff no other claim of a command falls between a thread's check and its write |
| `LaneRaces.WriteBetweenIff` | packages/execution_lane/service.py:117-129 | for a thread about to write, the command was claimed at all iff it was claimed since the thread's check |
| `LaneRaces.SessionsStartAtMostOnce` | services/workers/execution_lane_worker.py:78-106 | in every fresh run without such a claim, no command has its session started twice, every started one was claimed or reported, and none is live |
| `LaneRaces.AtomicClaimsDoNotRace` | packages/execution_lane/service.py:117-129 | claims that are not interrupted meet that condition |
| `LaneRaces.TwoThreadsStartTwice` | services/workers/execution_lane_worker.py:78-106 | in any state, two threads that interleave their checks and writes start any startable queued command twice |
| `LaneRaces.RaceFromTheStart` | services/workers/execution_lane_worker.py:78-106 | such a run exists from an empty service with a single enqueue |
| `LaneRaces.OrdinaryEventsAreFresh` | services/workers/execution_lane_worker.py:78-106 | when no caller supplies an id or a status, every run of events is fresh |
| `LaneRaces.StartNeedsEnabledPaper` | services/workers/execution_lane_worker.py:60-70 | a valid PAPER profile may start a command iff it is stored for it, in its scope, and the profile is enabled with a slot |
| `LaneRaces.LiveStartsNothing` | services/workers/execution_lane_worker.py:65-66 | no LIVE or unknown profile starts anything |
| `LaneWorkers.SessionsNameTheirCommands` | packages/execution_lane/sessions.py:439-448 | sessions are told apart by tenant, project, profile, command and version |
| `BacktestJobs.KeyRoundTrip` | packages/backtest_jobs/service.py:16-45 | re-canonicalising a created job's payload gives back its creation key |
| `BacktestLaws.GivenFieldsReachTheJob` | packages/backtest_jobs/service.py:16-38 | each of the fifteen fields, when given and not empty, reaches the job; the first alternative given wins |
| `BacktestLaws.Defaults` | packages/backtest_jobs/service.py:16-38 | what a job has when nothing is given |
| `BacktestLaws.SpecRoundTrip` | packages/backtest_jobs/service.py:162-179 | a job description survives payload and canonicaliser iff its required fields are filled |
| `BacktestLaws.OneJobIff` | packages/backtest_jobs/service.py:40-45 | two complete descriptions lead to one job iff all fifteen fields agree |
| `BacktestLaws.CreationsShareAJobIff` | packages/backtest_jobs/service.py:53-89 | over any run two creations answer with one job iff their canonical payloads agree, each with the fields of its payload |
| `BacktestLaws.CreateReply` | packages/backtest_jobs/service.py:53-89 | a creation answers with the stored job: new in its first stage, or the one that was there |
| `BacktestLaws.LookupReply` | packages/backtest_jobs/service.py:91-95 | a job is found iff it exists and user and project agree |
| `BacktestLaws.TransitionReply` | packages/backtest_jobs/service.py:97-115 | a transition sets stage, status and time, keeps or replaces worker and references, and changes nothing else |
| `BacktestLaws.CancelReply` | packages/backtest_jobs/service.py:120-132 | a cancel sets the flag, stage, status and time, and changes nothing else |
| `BacktestJobs.IndexesAlwaysAgree` | packages/backtest_jobs/service.py:53-132 | after every run the by-key and by-id indexes hold the same jobs |
| `BacktestJobs.JobsContinue` | packages/backtest_jobs/service.py:97-132 | a job stays, keeps its fixed fields, and its cancel request is never withdrawn |
| `BacktestJobs.CreateIsIdempotent` | packages/backtest_jobs/service.py:53-89 | creating again after any operations returns the same job as it now stands and changes nothing |
| `BacktestJobs.BacktestJobService.CreateJob` | packages/backtest_jobs/service.py:53-89 | one step of the indexed machine |
| `BacktestJobs.BacktestJobService.TransitionJob` | packages/backtest_jobs/service.py:97-115 | updates both indexes, or refuses an unknown or out-of-scope job |
| `BacktestJobs.BacktestJobService.RequestCancel` | packages/backtest_jobs/service.py:120-132 | sets the cancel flag in both indexes, or refuses |
| `BacktestScanning.ScanIsLookup` | packages/backtest_jobs/postgres_service.py:34-51 | on jobs stored under their own keys the scan finds what the key index finds |
| `BacktestScanning.ScanningRefinesIndexed` | packages/backtest_jobs/postgres_service.py:34-131 | for every sequence of operations the scanning service holds the same jobs and gives the same answers as the indexed one |
| `BacktestScanning.PostgresBacktestJobService.CreateJob` | packages/backtest_jobs/postgres_service.py:34-86 | one step of the scanning machine, with its cache refreshed |
| `BacktestScanning.PostgresBacktestJobService.TransitionJob` | packages/backtest_jobs/postgres_service.py:98-119 | one step of the scanning machine |
| `BacktestScanning.PostgresBacktestJobService.RequestCancel` | packages/backtest_jobs/postgres_service.py:125-131 | one step of the scanning machine |
| `BacktestWorker.RunBacktestJob` | services/workers/nautilus_backtest_worker.py:26-116 | the transitions of one worker run, and job, worker, stage and progress of its events, when cancelled, failing or successful |
| `BacktestLaws.WorkerRunOutcome` | services/workers/nautilus_backtest_worker.py:26-116 | where a worker run leaves its job, and which events it appends, in each case |
| `BacktestWorker.NoRunAfterCancel` | services/workers/nautilus_backtest_worker.py:38-52 | no worker run begun after a cancel, whatever happened in between, moves the job |
| `BacktestWorker.FinishAfterCancel` | packages/backtest_jobs/service.py:97-132 | whatever happens after the cancel, the last step of a run begun before it moves the stage of its job only, and the request stays on record |
| `TokenBucket.RefillsCompose` | packages/ai_builder/rate_limiter.py:28-31 | two lazy refills in a row are one refill over the whole time |
| `TokenBucket.TokensStayInRange` | packages/ai_builder/rate_limiter.py:26-36 | in every run every bucket stays in [0, max] |
| `TokenBucket.RateBound` | packages/ai_builder/rate_limiter.py:14-36 | calls allowed for a key in any interval [s, t] number at most max + (t - s) * max / refill period |
| `TokenBucket.DeniedNeedsSpending` | packages/ai_builder/rate_limiter.py:26-36 | in every ordered run a denied call has at least max allowed calls of its key within the last refill period |
| `TokenBucket.DeniedCallsLeaveNoTrace` | packages/ai_builder/rate_limiter.py:26-36 | deleting any denied calls from a run changes no other decision and no later level |
| `TokenBucket.TokenBucketRateLimiter.Allow` | packages/ai_builder/rate_limiter.py:26-36 | decides and updates one bucket as the level function says |
| `TokenBucket.TokenBucketRateLimiter.TokensRemaining` | packages/ai_builder/rate_limiter.py:38-43 | returns the level; creating the missing bucket changes no level, now or later |
| `SlidingLog.LogsAgree` | packages/auth/rate_limit.py:20-37 | after every run each key's log is a suffix of its allowed calls that contains every unexpired one; expired ones leave it at the key's next call |
| `SlidingLog.AllowedIffRoomInWindow` | packages/auth/rate_limit.py:20-37 | a call is allowed iff fewer than max earlier allowed calls lie in the window ending with it |
| `SlidingLog.WindowBound` | packages/auth/rate_limit.py:20-37 | since its last reset, every closed interval of window length holds at most max allowed calls of a key |
| `SlidingLog.InMemoryRateLimiter.IsAllowed` | packages/auth/rate_limit.py:20-37 | the popping loop and the append are one step of the log machine |
| `SlidingLog.InMemoryRateLimiter.ResetKeys` | packages/auth/rate_limit.py:39-44 | forgets one key or all of them |
| `FixedWindow.CountersNeverExpireEarly` | packages/auth/redis_rate_limit.py:67-73 | no counter expires inside its own window: each holds the number of its increments |
| `FixedWindow.AllowedIffWithinWindowCount` | packages/auth/redis_rate_limit.py:67-74 | a served call is allowed iff at most max calls of its aligned window were counted, itself included |
| `FixedWindow.TwiceTheLimit` | packages/auth/redis_rate_limit.py:58-82 | a closed interval of window length holds at most 2 max allowed calls; failing open adds at most the calls that met a failure |
| `FixedWindow.TwiceTheLimitIsReached` | packages/auth/redis_rate_limit.py:67-74 | for every configuration and every start some run reaches exactly twice the limit within one window length |
| `FixedWindow.SlidingPromiseIff` | packages/auth/redis_rate_limit.py:20-74 | the documented sliding-window bound holds for an interval, over all runs, iff the limiter fails closed and the interval lies in one aligned window or the limit is zero |
| `FixedWindow.RedisRateLimiter.IsAllowed` | packages/auth/redis_rate_limit.py:58-82 | one step of the counter machine, failing commands and a client that never connected included |
| `TokenCache.SizeIsBounded` | packages/auth/service.py:46-90 | in every run the size stays within `max_tokens` |
| `TokenCache.EntriesAreLatest` | packages/auth/service.py:46-81 | every entry is what its token's latest registration stored; use never renews it |
| `TokenCache.VerifyReturnsLatest` | packages/auth/service.py:69-81 | verification succeeds iff the token is resident and there is no time to live or it has not passed since the latest registration, whose context it returns |
| `TokenCache.RegisterLeaves` | packages/auth/service.py:46-67 | a registration puts the stripped token at the recent end with its time and context, unless the cache may hold nothing |
| `TokenCache.VerifyLeaves` | packages/auth/service.py:69-81 | a verification moves a live token to the recent end and removes an expired one |
| `Text.StripTrims` | packages/auth/service.py:59-61 | stripping removes exactly the white space at both ends |
| `Text.PresentIff` | packages/execution_lane/models.py:309-310 | a value is present iff it has a character that is not white space |
| `Text.LowerLetters` | packages/execution_lane/models.py:260-260 | lower-casing changes the capital letters one by one and nothing else |
| `TokenCache.UsedTokenStays` | packages/auth/service.py:46-90 | a used token that is not revoked or expired stays while fewer than `max_tokens` other distinct tokens are used |
| `TokenCache.AuthTokenService.RegisterToken` | packages/auth/service.py:46-67 | strips, stores at the recent end and evicts, or refuses a blank token |
| `TokenCache.AuthTokenService.VerifyToken` | packages/auth/service.py:69-81 | returns the context and touches the token, or removes an expired one |
| `TokenCache.AuthTokenService.RevokeToken` | packages/auth/service.py:83-84 | removes the token, or does nothing when it is absent |
| `TokenCache.AuthTokenService.EvictIfNeeded` | packages/auth/service.py:86-90 | the loop drops exactly the least recent tokens beyond the capacity |
| `Equity.MaxDrawdown` | packages/backtest_runner/contracts.py:343-352 | the loop computes the single pass; on a curve without negative values that is the minimum, over all i <= j with a positive value at i, of the relative change from i to j, and lies in [-1, 0] |
| `Equity.OnePassIsDeepestFall` | packages/backtest_runner/contracts.py:343-352 | the single pass equals the quadratic definition on every curve without negative values |
| `Equity.BelowZeroThePassMissesPairs` | packages/backtest_runner/contracts.py:343-352 | on [10, 100, -50] the pass gives -1.5 and the deepest pair -6 |
| `Equity.DrawdownRange` | packages/backtest_runner/contracts.py:343-352 | the deepest fall lies in [-1, 0], above -1 on a positive curve, and is -1 iff some positive value is followed by zero |
| `Equity.DrawdownBoundsReturn` | packages/backtest_runner/contracts.py:247-254 | the total return is at least the maximum drawdown, which is zero iff the curve never falls |
| `Equity.Returns` | packages/backtest_runner/contracts.py:335-340 | the loop yields the change of each step that starts from a non-zero value |
| `Equity.OneMoreStep` | packages/backtest_runner/contracts.py:335-340 | a step from zero has no return; any other adds its relative change |
| `Equity.ReturnsTelescope` | packages/backtest_runner/contracts.py:335-340 | the product of (1 + return) is last / first |
| `Fixtures.Round2Monotone` | packages/backtest_runner/replay_loader.py:84-101 | rounding to cents is monotone |
| `Fixtures.Round2Idempotent` | packages/backtest_runner/replay_loader.py:84-101 | rounding to cents is idempotent |
| `Fixtures.Round2IsNearest` | packages/backtest_runner/replay_loader.py:84-101 | rounding moves a price by half a cent at most, to a whole number of cents |
| `Fixtures.TiesGoToTheEven` | packages/backtest_runner/replay_loader.py:84-101 | halves round to the even neighbour |
| `Fixtures.TimestampsIncrease` | packages/backtest_runner/replay_loader.py:72-82 | generated timestamps strictly increase |
| `Fixtures.ValidateTimestamps` | packages/backtest_runner/replay_fixtures.py:44-55 | comparing neighbours accepts exactly the non-empty lists in which every later timestamp is greater |
| `Fixtures.ValidateGenerated` | packages/backtest_runner/replay_loader.py:72-101 | constructing a fixture accepts the generated timestamps for every positive row count |
| `Fixtures.ValidateOhlcConsistency` | packages/backtest_runner/replay_loader.py:266-283 | reports exactly the rows and breaches there are |
| `Fixtures.GeneratedBarsAreConsistent` | packages/backtest_runner/replay_loader.py:84-101 | for every digest, seed, size, price and tick the generated bars have no violation |
| `Fixtures.QuotesAreNotCrossed` | packages/backtest_runner/replay_loader.py:118-134 | best bid <= best ask in every generated quote |
| `Fixtures.GenerateOrderBooks` | packages/backtest_runner/replay_loader.py:136-163 | the nested loops build the book of every row and level |
| `Fixtures.BookIsOrdered` | packages/backtest_runner/replay_loader.py:136-163 | bids do not rise and asks do not fall with depth, and no bid is above an ask of its row |
| `Fixtures.OneTickMore` | packages/backtest_runner/replay_loader.py:136-163 | one more level is one whole tick further off |
| `Fixtures.PricesReadTheirDraws` | packages/backtest_runner/replay_loader.py:83-163 | each price reads its own pseudo-random draws only |
| `Fixtures.ConstantDigests` | packages/backtest_runner/replay_loader.py:61-64 | some digests draw zero throughout and others one half |
| `Fixtures.ZeroDraws` | packages/backtest_runner/replay_loader.py:83-163 | bars, quotes and books when every draw is zero |
| `Fixtures.HalfDraws` | packages/backtest_runner/replay_loader.py:83-163 | bars, quotes and books when every draw is one half, which fixes every amplitude |
| `GraphSpec.FirstFree` | apps/web/lib/strategySpec.ts:230-240 | the suffix search ends at the least free candidate |
| `GraphSpec.SafeIndicatorId` | apps/web/lib/strategySpec.ts:230-240 | the while-loop terminates with a name that is not taken |
| `GraphSpec.IndicatorsFromGraph` | apps/web/lib/strategySpec.ts:146-165 | the loop fills the record as the fold over the nodes does |
| `GraphLaws.Defaults` | apps/web/lib/strategySpec.ts:213-223 | the default periods of the seven types and of the three slots |
| `GraphLaws.PeriodTaken` | apps/web/lib/strategySpec.ts:225-228 | a positive whole period is taken, and zero, a negative one and none replaced |
| `GraphLaws.BrokenPeriodReplaced` | apps/web/lib/strategySpec.ts:225-228 | a period that is not whole is replaced |
| `GraphLaws.SlotsFollowTheirNodes` | apps/web/lib/strategySpec.ts:151-153 | the first two EMA nodes and the first RSI node give the slots their periods |
| `GraphLaws.ExtraFollowsItsNode` | apps/web/lib/strategySpec.ts:177-183 | an extra indicator has its node's type and period, or the default of the type |
| `GraphLaws.LowerNames` | apps/web/lib/strategySpec.ts:231-231 | the seven types in lower case |
| `GraphLaws.GeneratedName` | apps/web/lib/strategySpec.ts:230-233 | a node without an id of its own is named by its type and the number of indicators there will be |
| `GraphLaws.OwnNameKept` | apps/web/lib/strategySpec.ts:230-240 | a clean and free id of its own is kept |
| `GraphLaws.SanitisingByCharacter` | apps/web/lib/strategySpec.ts:232-232 | sanitising works character by character and prefixes a leading digit |
| `GraphLaws.InheritedNames` | apps/web/lib/strategySpec.ts:235-235 | the names that every object has |
| `GraphRoundTrip.EveryIndicatorIsKept` | apps/web/lib/strategySpec.ts:146-165 | nothing is overwritten: 3 + indicator nodes - min(2, EMA) - min(1, RSI) entries; after the slots, the indicators of exactly the nodes that fill no slot, each once and in order |
| `GraphRoundTrip.RecordRoundTrip` | apps/web/lib/strategySpec.ts:127-144 | a record of the form the editor produces (the three slots first, then clean names, positive periods) survives record to graph to record iff no name in it starts with `node_` |
| `GraphRoundTrip.RoundTripIff` | apps/web/lib/strategySpec.ts:127-183 | for any graph, its spec survives iff no extra node's id is "node" followed by a character outside letters, digits and underscore, and at most one is "node" |
| `GraphRoundTrip.RoundTripSettles` | apps/web/lib/strategySpec.ts:127-183 | for any graph, one round trip reaches a spec that further round trips keep |
| `GraphRoundTrip.DashedNodeIsRenamed` | apps/web/lib/strategySpec.ts:230-240 | a node called "node-1" comes back under another name |
| `Identifiers.PaddedRoundTrip` | packages/strategy_spec/repository.py:17-19 | reading a zero-padded number back gives the number, for every number and width |
| `Identifiers.NumberedInjective` | packages/strategy_spec/repository.py:17-19 | owner, separator and padded number are injective in owner and number |
| `StrategyRepository.VersionIdsAreUnambiguous` | packages/strategy_spec/repository.py:17-19 | no version id names two versions |
| `StrategyRepository.InMemoryStrategyRepository.SpecForVersion` | packages/strategy_spec/repository.py:65-77 | the nested loops return exactly the version in scope that the id names, or nothing |
| `StrategyRepository.EarlierVersionsAreFixed` | packages/strategy_spec/repository.py:21-63 | once a version has a successor, its id names the same spec after every later run |
| `StrategyRepository.SaveIsFreshIffNotSavedExplicitly` | packages/strategy_spec/repository.py:21-32 | after any run, `save` takes a fresh id iff the run did not save explicitly under exactly that id |
| `StrategyRepository.SaveIsFresh` | packages/strategy_spec/repository.py:21-32 | explicit ids that avoid the generated form leave every save a fresh id |
| `StrategyRepository.SaveReport` | packages/strategy_spec/repository.py:21-26 | the version id that `save` returns names the saved spec iff its id was free or the strategy there begins with an equal spec |
| `StrategyRepository.SaveCollides` | packages/strategy_spec/repository.py:21-32 | `save_explicit("strategy_002", a)` then `save(b)` returns the version id of a |
| `StrategyRepository.ReportsResolve` | packages/strategy_spec/repository.py:21-63 | every other record returned names the spec it carries, in the caller's own scope |
| `StrategyRepository.SavesAppend` | packages/strategy_spec/repository.py:21-32 | where saves append, what they return and which scope they set |
| `StrategyRepository.UpdatesReplaceOrAppend` | packages/strategy_spec/repository.py:34-63 | a draft update replaces the latest version, a new version is appended, and refusals change nothing |
| `StrategyRepository.ApprovalMovesOneStage` | packages/strategy_spec/repository.py:139-176 | approval moves backtested to approved and approved to execution-ready, in the latest version only |
| `StrategyRepository.StatusIsSet` | packages/strategy_spec/repository.py:144-160 | a status is set in the latest version only |
| `StrategyRepository.ClonesAreDrafts` | packages/strategy_spec/repository.py:178-196 | a clone is an unfrozen draft of the same content that names its origin |
| `StrategyRepository.IdsInFull` | packages/strategy_spec/repository.py:13-22 | the version and strategy ids as printed |
| `StrategyRepository.InMemoryStrategyRepository.SaveSpec` | packages/strategy_spec/repository.py:21-26 | one save step; the record resolves when the id was free |
| `StrategyRepository.InMemoryStrategyRepository.SaveExplicitly` | packages/strategy_spec/repository.py:28-32 | one explicit save; the record resolves |
| `StrategyRepository.InMemoryStrategyRepository.UpdateDraftSpec` | packages/strategy_spec/repository.py:34-49 | replaces the latest version, or refuses; the record resolves |
| `StrategyRepository.InMemoryStrategyRepository.CreateVersionOf` | packages/strategy_spec/repository.py:51-63 | appends a version, or refuses; the record resolves |
| `StrategyRepository.InMemoryStrategyRepository.ApproveStrategy` | packages/strategy_spec/repository.py:162-176 | promotes the latest version's status one stage, or refuses |
| `StrategyRepository.InMemoryStrategyRepository.CloneStrategy` | packages/strategy_spec/repository.py:178-196 | saves a draft copy that names its origin, or refuses |
| `RuntimeEvents.ReplayNumbersTheRequests` | packages/runtime_events/service.py:13-44 | replaying a job gives its requests in order, event k numbered k, however jobs interleave |
| `RuntimeEvents.EventsCarryTheirRequests` | packages/runtime_events/service.py:25-41 | an event carries what its request gave, under the id of its job and number |
| `RuntimeEvents.EventIdsAreNotShared` | packages/runtime_events/service.py:25-44 | an event id belongs to one job and one position, now and in every later state |
| `RuntimeEvents.RuntimeEventService.AppendEvent` | packages/runtime_events/service.py:13-41 | appends one event to its own job's stream only |
| `WorkflowProjection.StatusIsFoldOfOwnEvents` | packages/workflow_spine/projections.py:10-30 | a lineage is known iff an event of it was applied, and its status has each field's last non-null value, the last event name, and flags that stay set, from its own events alone |
| `WorkflowProjection.InterleavingDoesNotMatter` | packages/workflow_spine/projections.py:10-48 | streams that agree on a lineage give it the same status |
| `WorkflowProjection.WorkflowReadModel.Apply` | packages/workflow_spine/projections.py:10-30 | keeps the dictionary the fold of all events applied; an event without lineage is refused and changes nothing |
| `WorkflowProjection.WorkflowReadModel.LineageStatus` | packages/workflow_spine/projections.py:32-48 | fails exactly for lineages of which no event was applied, and otherwise summarises the applied events of that lineage |
| `WorkflowService.RunKeepsIntegrity` | packages/workflow_spine/service.py:38-176 | in every run each job, result, suggestion and event agrees with a stored version on version and lineage, and each result with its job |
| `WorkflowLaws.CreationStores` | packages/workflow_spine/service.py:38-73 | an accepted creation stores strategy, version and job under the next number with what the caller gave |
| `WorkflowLaws.CreationShows` | packages/workflow_spine/service.py:75-86 | and the read model shows it at once |
| `WorkflowLaws.TestIsEnqueued` | packages/workflow_spine/service.py:87-99 | the enqueued test names job, project, version, strategy, thread and cycle |
| `WorkflowLaws.CreatableIff` | packages/workflow_spine/service.py:38-75 | what a creation is refused for |
| `WorkflowLaws.CompletionStoresAndShows` | packages/workflow_spine/service.py:100-132 | a completion stores the result with its job's scope and version, and the read model shows it at once |
| `WorkflowLaws.SuggestionRefusals` | packages/workflow_spine/service.py:134-162 | why a suggestion is refused, in order, and what an accepted one carries |
| `WorkflowLaws.SuggestionShows` | packages/workflow_spine/service.py:164-176 | the read model shows an accepted suggestion at once |
| `WorkflowLaws.IdsInFull` | packages/workflow_spine/service.py:38-65 | the numbered ids as printed |
| `WorkflowRestarts.RestartsKeepLineages` | packages/workflow_spine/service.py:19-22 | however many services take over the same repository, each counting from 1, jobs, results, suggestions and events agree with a stored version on version and lineage |
| `WorkflowRestarts.ResultsReferThroughoutIff` | packages/workflow_spine/service.py:38-76 | over any succession of services, every result agrees with its job throughout, project included, iff no service created a job over one that a result of another project names |
| `WorkflowRestarts.SuggestionsReferThroughoutIff` | packages/workflow_spine/service.py:38-76 | over any succession of services, every suggestion agrees with its version throughout, thread and cycle included, iff no service created a version over one that a suggestion of another thread or cycle names |
| `WorkflowRestarts.NumberUsedIff` | packages/workflow_spine/service.py:38-76 | a number is in use by a job, and by a version, iff some service accepted a creation at that count |
| `WorkflowRestarts.SecondServiceTakesAResult` | packages/workflow_spine/postgres_repository.py:94-103 | a run after which a stored result and its job name different projects |
| `WorkflowRestarts.SecondServiceTakesASuggestion` | packages/workflow_spine/postgres_repository.py:83-92 | a run after which a stored suggestion and its version name different threads |
| `WorkflowObject.StrategyTestWorkflowService.CreateVersionAndEnqueueTest` | packages/workflow_spine/service.py:24-98 | on any repository: one creation under the next number, the counter advancing even when validation fails; keeps integrity and agreement of lineages where they hold; under integrity the ids are unused |
| `WorkflowObject.StrategyTestWorkflowService.RecordResultCompleted` | packages/workflow_spine/service.py:100-132 | on any repository: the result copies its job's scope and version, an unknown job is refused; where lineages agree it agrees with a stored version |
| `WorkflowObject.StrategyTestWorkflowService.RecordSuggestionCreated` | packages/workflow_spine/service.py:134-176 | on any repository: each refusal is the one the code makes; where lineages agree, a missing version is never the reason |
| `WorkflowRuns.VersionsOfALineage` | packages/workflow_spine/service.py:38-51 | a lineage has one version only |
| `WorkflowRuns.StatusNamesTheStoredVersion` | packages/workflow_spine/projections.py:10-48 | in every run the read model knows a lineage iff a version of it is stored, and names that version |
| `WorkflowRuns.CompletedIffResultStored` | packages/workflow_spine/service.py:100-132 | with unused result ids, or harmless reuse, `result_completed` holds iff a stored result has the lineage |
| `WorkflowRuns.AgreementKeptIff` | packages/workflow_spine/repository.py:39-40 | completing a result keeps that agreement iff the id is unused, stays in its lineage, or leaves its old lineage another result |
| `WorkflowRuns.ShowsCompletedIffSomeCompletion` | packages/workflow_spine/service.py:100-132 | for every run, a lineage shows as completed iff some accepted completion was for it |
| `WorkflowRuns.StoredIffSomeCompletionKept` | packages/workflow_spine/repository.py:39-40 | for every run, a stored result has the lineage iff some completion for it has a result id that no later completion used for another lineage |
| `WorkflowRuns.AgreementIff` | packages/workflow_spine/service.py:100-132 | for every run, the two agree on a lineage iff it was never completed or one of its completions kept its result id |
| `WorkflowRuns.StoredResultsShow` | packages/workflow_spine/service.py:100-132 | a stored result always shows as completed, whatever the ids |
| `WorkflowRuns.ReusedResultIdLosesAResult` | packages/workflow_spine/repository.py:39-40 | two completions under one id: the first lineage shows as completed without a stored result |
| `Artifacts.ParseInvertsPrint` | packages/artifact_store/service.py:112-135 | parsing accepts exactly the printed safe references and gives back what was printed |
| `Artifacts.SafeByCharacter` | packages/artifact_store/service.py:15-15 | which characters a safe identifier may start and go on with |
| `Artifacts.PrintedInFull` | packages/artifact_store/service.py:134-135 | the printed reference and the file it addresses |
| `Artifacts.PathsAreDistinct` | packages/artifact_store/service.py:124-131 | distinct references have distinct paths |
| `ArtifactStore.FetchReturnsLatestPut` | packages/artifact_store/service.py:26-90 | after any history of puts, of string payloads, reading any string gives the latest artifact put under it by the same user and project, or exactly the error it earns |
| `ArtifactStore.StoredFields` | packages/artifact_store/service.py:42-63 | a stored artifact says where it belongs and carries payload and metadata as put |
| `ArtifactStore.LocalJsonArtifactStore.PutJson` | packages/artifact_store/service.py:26-63 | stores safe references only, and the returned reference reads back at once |
| `ArtifactStore.LocalJsonArtifactStore.GetJson` | packages/artifact_store/service.py:65-90 | parses, checks scope, existence and checksum in that order |
| `Promotions.ValidateEvidence` | packages/promotions/service.py:108-146 | accepts iff exactly the six references are given and, when a store and a context are configured, each names a stored artifact of its kind bound to the version and hash; returns the checksums of what was checked |
| `Promotions.BindsIff` | packages/promotions/service.py:149-177 | evidence is bound by metadata or, without it, the payload, under either name of the version |
| `Promotions.KindsOfEvidence` | packages/promotions/models.py:12-20 | the six kinds of evidence |
| `Promotions.AcceptedIsVerifiedIff` | packages/promotions/service.py:122-126 | accepted evidence is always verified iff both a store and a context are configured |
| `Promotions.AcceptedEvidenceWasPut` | packages/promotions/service.py:128-168 | accepted evidence is the latest artifact the same user and project put under that reference, bound in its own payload or metadata |

## Left out

- Constant fields of the evaluator's evidence (no orders, no live trading), and the quote-tick entry points, which only average two prices.
- Rounding and overflow of floating-point arithmetic; times and periods of the limiters are reals.
- Credential slots: whether a profile's slot is accepted at registration is an input. Listing and lookup queries of the lane, the session
  list of a snapshot, and stopping a session.
- GraphRoundTrip.RecordRoundTrip: speaks of records of the form the editor produces; every graph is covered by `RoundTripIff`.
- LaneService.ExecutionLaneService.RegisterProfile: whether the credential slot fits the profile is an input.
- LaneService.ExecutionLaneService.Snapshot: states the command counts and the order flag; the counts of profiles, reports, sessions and
  slots and the feature flags are plain filters of the other stores.
- LaneService.ExecutionLaneService.RecordReport: lane mode and venue account of a report are not modelled; no gate reads them.
- The recursive scan for forbidden keys in profiles, commands and reports: whether each is clean is an input.
- The order in which blocked reasons are sorted for display; the model states their set.
- Threads and nodes of the native session runner: a start succeeds or fails as the environment decides.
- A claim reads the clock once; the reading is an input. `claimed_by` and `claimed_at` are not supplied by callers of enqueue.
- List queries and frontend-disconnect notes of the backtest job services, and the SQL below the scanning one: its repository is a map.
- `issue_token`, whose tokens are numbered and then registered.
- Trades, volumes, funding rates, checksums and dataset reports of the fixtures; the pseudo-random digest is an arbitrary function.
- The Sharpe ratio and the numeric coercion of report fields.
- Graph editing, conversion of list-shaped or malformed indicator records, and string-valued periods (their numeric value is the input).
  Node ids are sequences of characters of the basic plane, and no node object is listed twice.
- `list` and `detail` of the strategy repository, and the role of a context.
- Metadata, actor and stage of runtime events (one opaque note), and the durable stream.
- Scoped queries of the workflow repository and the Postgres form of it. The read model is fed the workflow event stream; `test.enqueued`
  events are published on another stream and are not applied.
- BacktestWorker.RunBacktestJob: level, message and metadata of the events it appends are left out.
- Files, atomic writes and JSON of the artifact store, and hand-made files in it.
- Promotion requests, gate tables, lifecycle stages, migrations, HTTP routes and the user interface.
