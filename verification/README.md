# Verification model

A Dafny model of the parts of the agent platform and its domain SDK where correctness is hardest to see from the code:
the workflow engine, the factor-search numerics, the recovery and promotion protocols, and the selection, statistics and
memory components. Each `.dfy` file models one component (its first line names the source file); `dafny verify
dfyconfig.toml` checks the whole project.

How the program is represented:

- Identifiers, keys and skeleton strings are integers ordered like the original strings; names that only need equality
  (capabilities, permissions, digests) are integers or strings. Digests are injective, so each is modelled by what it covers.
  Skeleton keys need not be: `FsaStatistics.Nested` asks only what `RenderedShorter` proves of the rendering.
- Floats are exact reals. The tolerances of 1e-12 and 1e-9 are zero except for the variance threshold of the correlation;
  rounding to six digits is dropped. NaN is an option type. `math.sqrt` is a function that is the non-negative root where
  it is used.
- Clocks, random draws, adapter outcomes, proposer answers and cancellation are parameters or nondeterministic choices.
- A database transaction is one atomic step; a raised error rolls it back and becomes an `Err` or `None`. Steps the
  program commits separately stay separate.
- Classes keep the fields of the original objects; their methods are proved against functions or predicates on values,
  and the properties are lemmas about those.

Where a promised property does not hold of the code as it is, the model keeps the code and says exactly when it does:

- the quota solver: `QuotaSolver.BoundedProportional` and `FourItemsNeedSixPasses` (the pass budget is enough for three
  items, not for four), `FactorAdaptation.QuotaNeverFailsExactly` and `ZeroBaseRatioCanFail` (a zero base ratio can make
  it raise);
- the crash window of the discovery loop: `LoopRuns.CrashFlaggedExactly` and `StaleDigestHidesCrash` (a review does not
  recompute the state digest, so one crash can be missed);
- candidate generation: `FactorCandidateFactory.Generate` and `StringProposalBreaks` (proposals are copied outside the
  guard that covers the proposer, so one that is no mapping raises);
- promotion: `PromotionProtocol.StopExact`, `StopWithoutBaseline` and `Successions.ReplacedCampaignsCannotRollBack` (which
  active campaigns can be rolled back);
- working memory: `BoundedStore.RebuildAgreesExactly` and `TiesDisagree` (eviction and rebuild break ties in opposite
  directions).

## Model

| member | source | states |
|---|---|---|
| Workflow.BuildEdges | active_agent_platform/workflow.py:103-124 | Definition checks and edge building succeed exactly when ids are unique, every dependency, branch target and sub-workflow resolves and compensation nodes are named; the edge map then holds an edge a→b exactly when b depends on a or a may run b |
| Workflow.ConnectNodes | active_agent_platform/workflow.py:107-124 | The edge loop accepts exactly the definitions whose references all resolve, stopping at the first that does not |
| Workflow.CheckReferences | active_agent_platform/workflow.py:110-124 | One node's reference checks find a problem exactly when some reference of that node does not resolve |
| Kahn.TopologicalSort | active_agent_platform/workflow.py:301-318 | Kahn's loop returns exactly when the graph is acyclic; its order holds every node once, every edge forward, and no topological order is lexicographically smaller |
| Kahn.GreedyIsSmallest | active_agent_platform/workflow.py:301-318 | An order that always takes the smallest available node is lexicographically at most every topological order |
| Graphs.StuckImpliesCycle | active_agent_platform/workflow.py:309-317 | When no remaining node is free of predecessors the graph has a cycle, so the loop's error is justified |
| Graphs.OrderImpliesAcyclic | active_agent_platform/workflow.py:301-318 | A graph with a topological order has no cycle |
| Kahn.ValidateGraph | active_agent_platform/workflow.py:71-128 | A successful validation yields resolved references and an order in which dependencies and controllers come first; a cycle error means no such order exists |
| Kahn.OrderRespectsPrecedence | active_agent_platform/workflow.py:107-125 | A topological order of the edge map puts every dependency and every controller before what it governs |
| Kahn.PrecedenceGivesOrder | active_agent_platform/workflow.py:107-125 | Conversely, every order respecting dependencies and controllers is topological for the edge map |
| PlanValidation.CycleCheck.Visit | active_agent_platform/plan_validation.py:116-125 | The recursive visit terminates; on success the node is finished and the path being visited is restored, and a rejection means the graph has a cycle |
| PlanValidation.AssertAcyclic | active_agent_platform/plan_validation.py:112-128 | The depth-first check accepts exactly the acyclic dependency graphs |
| PlanValidation.FinishingOrderProvesAcyclic | active_agent_platform/plan_validation.py:112-128 | If every node finishes after all its dependencies the graph has no cycle |
| PlanValidation.ChecksAgree | active_agent_platform/plan_validation.py:112-128 | The depth-first check and Kahn's loop on the reversed edges always give the same answer |
| Graphs.ReverseAcyclic | active_agent_platform/plan_validation.py:112-128 | A graph is acyclic exactly when its reversal is, which is what lets the two checks be compared |
| RunLog.CreateKeepsConsistency | active_agent_platform/workflow_runs.py:149-210 | Inserting a PENDING row with its version-0 log entry keeps every row equal to the replay of its log |
| RunLog.MoveKeepsConsistency | active_agent_platform/workflow_runs.py:282-347 | An accepted transition keeps, for every key: row equal to the fold of the log, versions 0,1,2,..., legally chained statuses, `finished_at` exactly in terminal and `error_id` exactly in error states |
| RunLog.ReplayedEventChangesNothing | active_agent_platform/workflow_runs.py:295-299 | An accepted transition asked for again with the same event id, even from any later store, is answered without a change |
| RunLog.TerminalIsAbsorbing | active_agent_platform/workflow_runs.py:502-508 | From a terminal row the only accepted request is a replayed event, and it changes nothing |
| RunLog.TerminalOnlyLast | active_agent_platform/workflow_runs.py:57-83 | In a consistent history a terminal status can only be the last entry |
| RunLog.TablesMean | active_agent_platform/workflow_runs.py:57-83 | The two tables status by status: nothing leaves a terminal status, RUNNING leads to every terminal one, only node attempts are skipped or reviewed |
| RunLog.RunsNeverSkipped | active_agent_platform/workflow_runs.py:57-69 | In any consistent history a workflow run is never SKIPPED or in REQUIRES_REVIEW |
| RunLog.FieldsMean | active_agent_platform/workflow_runs.py:511-526 | A transition is well formed exactly with a reason of 1 to 500 characters, a non-empty error id into an error status, and none into any other |
| RunLog.ReuseExact | active_agent_platform/workflow_runs.py:295-299 | An event id used before is accepted again exactly for the same row and target, and then changes nothing |
| WorkflowRuns.NewAttemptKeepsSequence | active_agent_platform/workflow_runs.py:228-239 | Accepting a new attempt keeps attempts numbered 1..n with all but the last terminal |
| WorkflowRuns.AttemptExact | active_agent_platform/workflow_runs.py:226-239 | An attempt number is accepted exactly as the first of its node or right after an attempt that has ended |
| WorkflowRuns.WorkflowRunRepository.CreateWorkflow | active_agent_platform/workflow_runs.py:149-210 | Succeeds exactly for a future deadline, a new run and an unused event; otherwise nothing changes |
| WorkflowRuns.WorkflowRunRepository.CreateNode | active_agent_platform/workflow_runs.py:212-280 | Accepts exactly the next attempt after a terminal one of an existing run under an unused event, and keeps all projections equal to their logs |
| WorkflowRuns.WorkflowRunRepository.TransitionWorkflow | active_agent_platform/workflow_runs.py:282-347 | Compare-and-swap on version and status tied to the functional step, error by error; both projections stay the fold of their logs |
| WorkflowRuns.WorkflowRunRepository.TransitionNode | active_agent_platform/workflow_runs.py:349-445 | The same for node attempts: besides the step itself, output is refused off SUCCEEDED, when it is both inline and an artifact, or above 1 MiB inline; a replayed event attaches nothing |
| WorkflowRuns.MoveKeepsOutputs | active_agent_platform/workflow_runs.py:379-408 | Only SUCCEEDED attempts ever have output, and inline output is never above the limit |
| WorkflowPlans.ValidationGivesPlan | active_agent_platform/workflow_runtime.py:170-178 | What validation returns is a plan in which dependencies come earlier and branch and compensation targets later, which is all the executor's recursion relies on |
| WorkflowRuntime.Execution.constructor | active_agent_platform/workflow_runtime.py:278-291 | Every node starts PENDING at attempt 1 and the executor's invariant holds |
| WorkflowRuntime.Execution.Transition | active_agent_platform/workflow_runtime.py:675-703 | The cached status, the attempt's row and the executed set move together, and only by a step the repository's table allows |
| WorkflowRuntime.Execution.CheckDependencies | active_agent_platform/workflow_runtime.py:317-332 | Proceeds exactly when every dependency succeeded, was skipped or is the running controller; blocking needs a dependency that failed, timed out, was cancelled or awaits review |
| WorkflowRuntime.Execution.Begin | active_agent_platform/workflow_runtime.py:337-343 | A new attempt is started only on gated dependencies or after a failure, gets the next attempt number, and touches no other node |
| WorkflowRuntime.Execution.ExecuteNode | active_agent_platform/workflow_runtime.py:310-378 | Terminates; returns the node's terminal status; changes only pending nodes at its position or later and leaves none running; SKIPPED only because a direct dependency did not succeed; raises only when a dependency has not finished |
| WorkflowRuntime.Execution.RetryLoop | active_agent_platform/workflow_runtime.py:333-378 | Another attempt only below `max_attempts`, for a listed code and after a look that found no reason to stop; ends SUCCEEDED, FAILED or TIMED_OUT, or with the signal it saw, and a node left FAILED was given up or cut short |
| WorkflowRuntime.Execution.RunAttempt | active_agent_platform/workflow_runtime.py:337-377 | One attempt leaves the node in the terminal status its outcome calls for, on exactly the attempt row that was opened |
| WorkflowRuntime.Execution.DispatchWithLimits | active_agent_platform/workflow_runtime.py:380-418 | Whatever times out or is cancelled inside, only pending later nodes changed and a success of a parallel node still means its policy is met |
| WorkflowRuntime.Execution.RunCondition | active_agent_platform/workflow_runtime.py:479-489 | Afterwards all nodes of the branch not taken are finished, and nothing has changed but pending ones of them, now skipped |
| WorkflowRuntime.Execution.RunBranch | active_agent_platform/workflow_runtime.py:496-509 | A branch counts as succeeded exactly when all its targets finished well, and as failed only when one failed, timed out or awaits review |
| WorkflowRuntime.Execution.RunParallel | active_agent_platform/workflow_runtime.py:491-550 | A parallel node succeeds exactly when its branches meet the failure policy: all of them clean, or at least `min_success` of them |
| WorkflowRuntime.Execution.Tolerate | active_agent_platform/workflow_runtime.py:541-546 | What is tolerated grows by exactly the failed and timed-out nodes of the branches, and every tolerated node has a min_success node with enough clean branches |
| WorkflowRuntime.Execution.RunSubWorkflow | active_agent_platform/workflow_runtime.py:563-613 | Succeeds exactly when the child run did or its failure is to be ignored; the parent's nodes change only for a compensation after a child that did not succeed, and a compensated failure is reported only when the compensation succeeded |
| WorkflowRuntime.Execution.CancelRemaining | active_agent_platform/workflow_runtime.py:655-661 | Exactly the nodes not yet executed become CANCELLED, so all node runs are terminal |
| WorkflowRuntime.Execution.Execute | active_agent_platform/workflow_runtime.py:163-249 | Terminates on every validated plan and sequence of outcomes; whenever it returns a result every node run is terminal; SUCCEEDED and FAILED tell whether some failure is not tolerated, CANCELLED and TIMED_OUT that somebody saw the signal; the depth limit, and only it, stops it at once |
| RuntimeState.RanBehindItsDependencies | active_agent_platform/workflow_runtime.py:316-332 | Any node that ran has each direct dependency SUCCEEDED or SKIPPED in the final statuses, unless that dependency is a controller that may run it |
| RuntimeState.FailureStopsDependents | active_agent_platform/workflow_runtime.py:316-332 | A node depending on one that failed, timed out or was cancelled (and does not control it) never ran |
| RuntimeState.SkippedForAReason | active_agent_platform/workflow_runtime.py:327-329 | Every node skipped in a finished run has a direct dependency that did not succeed, or was kept from running by a condition that chose the other branch, by a failed fail_fast branch, or as a compensation |
| RuntimeState.ChildDecides | active_agent_platform/workflow_runtime.py:602-606 | A sub-workflow node that SUCCEEDED had a child run that did, or the policy to continue without it |
| RuntimeState.CompensationForFailure | active_agent_platform/workflow_runtime.py:605-612 | A compensation node that ran was asked for by its sub-workflow after a child that ended without success, or ran as part of a parallel branch |
| RuntimeState.RejectedNeverStarts | active_agent_platform/workflow_runtime.py:479-489 | Once a condition has succeeded, no node starts any more that only the other value of the condition would have let run |
| RuntimeState.BranchesInOrder | active_agent_platform/workflow_runtime.py:496-509 | Under a parallel node a target starts only when everything before it in its branch has ended well |
| RuntimeState.RetriesAreListed | active_agent_platform/workflow_runtime.py:337-374 | Every attempt begins right after a look that found neither cancellation nor deadline, within the limit, and a further one only after a failure with a listed code |
| RuntimeState.FailedForGood | active_agent_platform/workflow_runtime.py:366-374 | A node left FAILED failed with an unlisted code or on its last attempt, or was cut short between two attempts |
| RuntimeState.SuccessWasReturned | active_agent_platform/workflow_runtime.py:344-377 | A node that SUCCEEDED had a dispatch that returned success, with neither cancellation nor deadline noticed right after |
| WorkflowRuntime.Execution.VerdictMeans | active_agent_platform/workflow_runtime.py:348-374 | An attempt is TIMED_OUT exactly on a deadline, CANCELLED exactly on a cancellation, and FAILED on any other exception |
| RuntimeState.EveryAttemptFinished | active_agent_platform/workflow_runtime.py:333-338 | After a finished run every attempt of every node is terminal and no node exceeded its retry limit |
| RuntimeState.VerdictsCount | active_agent_platform/workflow_runtime.py:537-549 | The success count the runtime adds up is the number of clean branches |
| RuntimeState.PolicySteady | active_agent_platform/workflow_runtime.py:491-550 | A met branch policy stays met for the rest of the run |
| QuotaSolver.BoundedProportional | domain_sdk/factor_adaptation.py:297-330 | Any result lies within every bound and sums to the total; for up to three items a result comes out exactly when the total is feasible; for any number exactly when len+1 passes leave no residual; proportional shares that fit are returned unchanged |
| QuotaSolver.RunPasses | domain_sdk/factor_adaptation.py:308-328 | For any number n of items and any number of passes: 2(n-1) passes hand a total out completely exactly when it is feasible, and whatever was handed out completely was feasible |
| QuotaSolver.FourItemsNeedSixPasses | domain_sdk/factor_adaptation.py:311-329 | Four items reach that bound: a feasible total of which the len+1 = 5 passes leave a residual, and the sixth none |
| QuotaSolver.ResidualShrinks | domain_sdk/factor_adaptation.py:311-326 | A pass never overshoots, and one that leaves a residual drives some free item to its bound |
| QuotaSolver.PotentialDrops | domain_sdk/factor_adaptation.py:311-326 | The number of items that can still move drops in every pass that leaves a residual, which bounds the passes |
| FactorAdaptation.TiltKeepsWeights | domain_sdk/factor_adaptation.py:333-360 | Tilting keeps the weights of each group positive where they were and summing to 1, for any feedback |
| FactorAdaptation.TiltFavoursAcceptance | domain_sdk/factor_adaptation.py:339-359 | In counts: between two tested strategies of a group, weight moves to the one with the larger share of acceptances; with equal shares their proportion stays |
| FactorAdaptation.TiltIsProportional | domain_sdk/factor_adaptation.py:346-357 | New weights stand to each other as the old ones, each times one plus the sensitivity times the distance of its score from the group's mean; an untested strategy keeps the factor one |
| FactorAdaptation.MeanScoreIs | domain_sdk/factor_adaptation.py:351 | The mean the scores are compared with counts every tested strategy of the group once |
| FactorAdaptation.UntestedGroupKeeps | domain_sdk/factor_adaptation.py:348-350 | A group of which nothing was tested keeps its weights |
| FactorAdaptation.RoundFavoursAcceptance | domain_sdk/factor_adaptation.py:419-468 | The same direction for a whole round of feedback |
| FactorAdaptation.MomentumMoves | domain_sdk/factor_adaptation.py:424-434 | The momentum moves towards the acceptance rate by the part alpha of the distance; the first tested round sets it, an untested one leaves it |
| FactorAdaptation.SignalsMean | domain_sdk/factor_adaptation.py:238-250 | What was tested and accepted over all five strategies, and the rate between them, in whole numbers |
| FactorAdaptation.RepetitionMeans | domain_sdk/factor_adaptation.py:251-254 | A round counts as repetitive exactly when enough of what was generated were duplicates |
| FactorAdaptation.BaseWeightsMean | domain_sdk/factor_adaptation.py:122-128 | The first weights of a group stand to each other as its base ratios |
| FactorAdaptation.RoundKeepsPolicy | domain_sdk/factor_adaptation.py:419-468 | After any feedback, share, step and group weights stay within the policy, and positive weights stay positive |
| FactorAdaptation.ShareMovesGently | domain_sdk/factor_adaptation.py:436-447 | The exploration share moves by at most the adjustment step, down only on acceptance and up only on stagnation or repetition |
| FactorAdaptation.FactorSearchGovernor.Observe | domain_sdk/factor_adaptation.py:419-468 | The new state is the feedback round's state function of the old one, and stays valid |
| FactorAdaptation.FactorSearchGovernor.CurrentQuota | domain_sdk/factor_adaptation.py:396-417 | A quota comes out exactly when the state is feasible; it then respects every bound, gives exploration its share and sums to 1, and where no bound is in the way it is proportional to the group weights |
| FactorAdaptation.PositiveWeightsSuffice | domain_sdk/factor_adaptation.py:396-417 | With positive weights the state is always feasible, so the solver cannot raise |
| FactorAdaptation.QuotaAlwaysExists | domain_sdk/factor_adaptation.py:363-468 | From positive base ratios summing to 1 and after any sequence of feedback, a quota exists |
| FactorAdaptation.QuotaNeverFailsExactly | domain_sdk/factor_adaptation.py:363-468 | For every valid policy and accepted base ratios: no sequence of feedback can make `current_quota` raise exactly when, given which base ratios are zero, the first share fits both groups and so does each end of the share window that some feedback leads to |
| FactorAdaptation.ZeroBaseRatioCanFail | domain_sdk/factor_adaptation.py:396-417 | With a zero base ratio a valid policy and one round of feedback can make `current_quota` raise |
| FactorExpressions.EvaluateSeries | domain_sdk/factor_backtest.py:337-363 | The evaluation loop computes, at every bar, the value the expression denotes there |
| FactorExpressions.DefinedAfterLookback | domain_sdk/factor_backtest.py:310-363 | A factor value is defined at bar t exactly when t is at least the definition's lookback |
| FactorExpressions.ValueIsLocal | domain_sdk/factor_backtest.py:337-363 | A value depends only on the bars from t minus the lookback up to t |
| FactorExpressions.AverageOperator | domain_sdk/factor_backtest.py:354-355 | ts_mean times the window is the sum of the input over the window |
| FactorExpressions.DeltaOperator | domain_sdk/factor_backtest.py:356-357 | ts_delta is the input now less the input `window` bars ago |
| FactorExpressions.RankOperator | domain_sdk/factor_backtest.py:358-362 | rank is the share of the window's other bars with a smaller value, equal ones counting half; 0.5 for a window of one |
| FactorExpressions.AcceptedDefinitions | domain_sdk/factor_backtest.py:320-334 | A definition is accepted exactly when it ends in a known field and has only the three operators with positive windows |
| FactorStatistics.AverageRanks | domain_sdk/factor_backtest.py:369-381 | The two-pointer loop assigns each value its counting rank: the number smaller plus half of one more than the number equal |
| FactorStatistics.RunHasRank | domain_sdk/factor_backtest.py:373-380 | The block average of a maximal run of equal values is their counting rank |
| FactorStatistics.RankSum | domain_sdk/factor_backtest.py:369-381 | The ranks of n values always add up to n(n+1)/2 |
| FactorStatistics.MeanCancels | domain_sdk/factor_backtest.py:402-403 | The deviations from the mean cancel |
| FactorStatistics.CauchySchwarz | domain_sdk/factor_backtest.py:384-395 | The squared dot product is at most the product of the squared lengths, for sequences of any length |
| FactorStatistics.PearsonInRange | domain_sdk/factor_backtest.py:384-395 | The correlation lies in [-1, 1] |
| FactorStatistics.SpearmanInRange | domain_sdk/factor_backtest.py:398-399 | So does the rank correlation |
| FactorStatistics.PearsonMeans | domain_sdk/factor_backtest.py:384-395 | The square of the correlation times both variations is the squared covariation, its sign the covariation's; zero where a series hardly varies |
| FactorStatistics.PearsonOfAffine | domain_sdk/factor_backtest.py:384-395 | A series correlates 1 with every increasing linear image of itself and -1 with every decreasing one |
| FactorStatistics.SpearmanOfOrders | domain_sdk/factor_backtest.py:369-399 | Series ordered alike have rank correlation 1, series ordered oppositely -1, ties included |
| FactorPortfolio.AssignTarget | domain_sdk/factor_backtest.py:544-549 | The weight loop fills exactly the target portfolio: equal longs on top, equal shorts at the bottom |
| FactorPortfolio.TargetBalanced | domain_sdk/factor_backtest.py:545-549 | Target weights sum to 0 and their magnitudes to 2 |
| FactorPortfolio.LongsAboveShorts | domain_sdk/factor_backtest.py:544-549 | Every long has at least the factor value of every short |
| FactorPortfolio.LegsAreExtremes | domain_sdk/factor_backtest.py:542-549 | Everything outside the long leg comes before all of it in (factor, name) order, everything outside the short leg behind all of that |
| FactorPortfolio.TargetWeights | domain_sdk/factor_backtest.py:545-549 | Every weight is one part of the leg, long or short, or zero |
| FactorPortfolio.TradedMeans | domain_sdk/factor_backtest.py:550 | The traded amount is the sum of all changes of weight, taken as positive |
| FactorPortfolio.TurnoverNormalised | domain_sdk/factor_backtest.py:550-552 | The traded amount divided by four lies in [0, 1] |
| FactorPortfolio.LegFits | domain_sdk/factor_backtest.py:537 | For two or more assets and a quantile up to one half the legs are non-empty and do not overlap |
| FactorPortfolio.LegMeans | domain_sdk/factor_backtest.py:537 | A leg is the largest whole number of assets within the quantile, or a single one |
| FactorBacktest.RunLongShort | domain_sdk/factor_backtest.py:527-559 | The rebalance loop computes the net returns, turnovers and rebalance count of the portfolio definition |
| FactorBacktest.ForwardReturnMeans | domain_sdk/factor_backtest.py:507-515 | The forward return is what the close is worth `horizon` bars later beyond its price; it exists while there are such bars |
| FactorBacktest.PerfectFactor | domain_sdk/factor_backtest.py:518-525 | A factor that orders the assets as their later returns do scores 1 on that bar, the opposite order -1 |
| FactorBacktest.PeriodReturnAt | domain_sdk/factor_backtest.py:541-555 | The k-th net return belongs to the k-th rebalance bar and trades from the weights of the one before |
| FactorBacktest.RebalanceBarIs | domain_sdk/factor_backtest.py:541 | The k-th rebalance bar is the first bar plus k horizons |
| FactorBacktest.NetReturnMeans | domain_sdk/factor_backtest.py:553-554 | A net return is the weighted sum of the forward returns less cost plus slippage, in basis points, of the traded amount |
| FactorBacktest.PeriodCount | domain_sdk/factor_backtest.py:541-556 | One period per rebalance, every `horizon` bars from the first bar until the end |
| FactorBacktest.TurnoverOfChange | domain_sdk/factor_backtest.py:550-552 | The k-th turnover is a quarter of what the change from one rebalance to the next trades |
| FactorBacktest.LongShortMeans | domain_sdk/factor_backtest.py:557-559 | Sharpe ratio, turnover and rebalance count come from these net returns and turnovers, the ratio scaled by the periods of a year |
| FactorBacktest.StdMeans | domain_sdk/factor_backtest.py:406-410 | The squared deviation times n-1 is the sum of squared deviations |
| FactorBacktest.ReportedTurnoverIsFraction | domain_sdk/factor_backtest.py:527-559 | The reported turnover is a fraction in [0, 1] |
| FactorBacktest.CollectBuckets | domain_sdk/factor_backtest.py:561-574 | The bucket loop builds exactly the defined buckets |
| FactorBacktest.BucketsPartition | domain_sdk/factor_backtest.py:561-574 | Buckets partition the series in order; all but the last have the bucket size and the last is neither too short nor too long |
| FactorBacktest.PositiveRatioIsFraction | domain_sdk/factor_backtest.py:561-574 | The positive-bucket ratio lies in [0, 1] |
| FactorBacktest.PositiveRatioMeans | domain_sdk/factor_backtest.py:571-574 | It is the share of the buckets whose mean is above zero |
| FactorBacktest.EvaluationSucceeds | domain_sdk/factor_backtest.py:444-453 | An evaluation succeeds exactly when panel and specification fit and every definition, the library's included, is accepted and short enough |
| FactorBacktest.ReportMeans | domain_sdk/factor_backtest.py:454-489 | A report is made of the in-sample series, the library's series, the portfolio of the in-sample bars and the later series |
| FactorBacktest.InSamplePortfolioMeans | domain_sdk/factor_backtest.py:468 | The portfolio is held from the end of the warm-up to the last bar whose return ends in the sample |
| FactorBacktest.LibraryIcAt | domain_sdk/factor_backtest.py:469-472 | The library's series are the in-sample series of its entries, in order |
| FactorBacktest.FiguresMean | domain_sdk/factor_backtest.py:477-489 | Each in-sample figure is the statistic of its name: mean, deviation, ratio, recent mean, positive buckets, largest correlation, portfolio |
| FactorBacktest.InSampleIcMeans | domain_sdk/factor_backtest.py:195-197 | The in-sample series holds the rank correlation of every bar after the warm-up whose return ends inside the sample |
| FactorBacktest.OosIcMeans | domain_sdk/factor_backtest.py:199-201 | The later series holds that of every bar after the sample that has a return |
| FactorBacktest.MaxCorrelationMeans | domain_sdk/factor_backtest.py:469-473 | The reported correlation is the largest in absolute value with any library entry, and zero without one |
| FactorBacktest.WarmupNeverRaised | domain_sdk/factor_backtest.py:430-477 | The warm-up error is never reached for any definition, library and panel |
| FactorBacktest.NoLookAhead | domain_sdk/factor_backtest.py:194-201 | Two panels agreeing on every bar before `in_sample_bars` give the same in-sample report, or the same error, for every definition and library |
| LoopProtocol.StepKeepsDigest | domain_sdk/factor_loop.py:112-299 | Every operation, crashed or not, leaves the stored facts digest equal to the digest of the stored facts |
| LoopProtocol.LegacyDigestHealed | domain_sdk/factor_loop.py:312-317 | A checkpoint without a facts digest is completed by the first call, which then does exactly what it would have done on the completed one; `initialize`, cut short or not, changes nothing else in the row unless the pointer raises an objection, and then only the status |
| LoopProtocol.StepMovesForward | domain_sdk/factor_loop.py:231-299 | Neither facts nor the iteration go backwards, whatever the pointer and the earlier facts |
| LoopProtocol.ChangedFactsFlagged | domain_sdk/factor_loop.py:122-126 | Facts that no longer match their digest are flagged before anything else; only the status changes |
| LoopProtocol.PointerChecked | domain_sdk/factor_loop.py:324-338 | With unchanged facts the first call flags the row exactly on a pointer that is unreadable, foreign, ahead of the database or different at the same iteration, and no other call but `reconcile` gets further |
| LoopProtocol.ReviewHoldsUntilReconcile | domain_sdk/factor_loop.py:112-184 | No call but `reconcile` leaves REQUIRES_REVIEW or makes progress meanwhile |
| LoopProtocol.ReconcileAcceptsFacts | domain_sdk/factor_loop.py:186-201 | `reconcile` changes only a checkpoint under review, and takes the stored facts as they are |
| LoopProtocol.FinishedStaysFinished | domain_sdk/factor_loop.py:138-184 | A completed or terminated loop changes status only into a review |
| LoopRuns.RunKeepsDigest | domain_sdk/factor_loop.py:112-299 | Over any run of calls, crashes, restarts and pointer tampering the facts digest stays that of the facts |
| LoopRuns.RunMovesForward | domain_sdk/factor_loop.py:112-299 | Over any such run facts and iteration only grow |
| LoopRuns.RunStaysInReview | domain_sdk/factor_loop.py:112-184 | Without `reconcile` a review lasts for any run, at the same iteration |
| LoopRuns.ChangedFactsStopTheLoop | domain_sdk/factor_loop.py:122-126 | After facts were changed from outside, any run without `reconcile` makes no progress and its first call flags them |
| LoopRuns.AdvancingCrashHealed | domain_sdk/factor_loop.py:240-244 | A crash between commit and pointer write of an iteration-advancing step is healed by the next call with the checkpoint, status included, unchanged |
| LoopRuns.CrashWindowExact | domain_sdk/factor_loop.py:324-338 | For every operation: a crash in the window goes unflagged exactly when the iteration moved or neither digest changed; otherwise only the status becomes REQUIRES_REVIEW |
| LoopRuns.CrashFlaggedExactly | domain_sdk/factor_loop.py:324-338 | Told before the call, for every synchronised state and operation: a crash in the window is flagged exactly in a same-iteration rewrite whose state digest differs from the stored one |
| LoopRuns.RewriteCrashReviewed | domain_sdk/factor_loop.py:162-184 | With a fresh digest, a crash is flagged exactly for the same-iteration rewrites: pause, resume, terminate and completion |
| LoopRuns.StaleDigestHidesCrash | domain_sdk/factor_loop.py:319-322 | Because a review keeps the old state digest, a run of five calls (start, pause, damaged pointer, review, reconcile) ends in a synchronised state in which the next pause crashes unnoticed |
| LoopRuns.GentleRunsStayTrusted | domain_sdk/factor_loop.py:112-136 | Runs that crash only inside `initialize` or in advancing steps never give `initialize` a reason for a review |
| LoopRuns.SearchStateSurvives | domain_sdk/factor_loop.py:127-135 | A committed search snapshot is restored after a restart, the previous one after a crash before the pointer write |
| LoopRuns.IterationsBounded | domain_sdk/factor_loop.py:142-160 | Without `commit_iteration` no run passes the profile's iteration bound |
| FactorLoop.FactorDiscoveryLoop.Initialize | domain_sdk/factor_loop.py:112-136 | The method leaves exactly the protocol's state, crash before the pointer write included |
| FactorLoop.FactorDiscoveryLoop.Iterate | domain_sdk/factor_loop.py:138-160 | The same for an iteration: failure counting, review, completion |
| FactorLoop.FactorDiscoveryLoop.CommitIteration | domain_sdk/factor_loop.py:231-299 | The same for facts, checkpoint and pointer of a committed iteration |
| FactorLoop.FactorDiscoveryLoop.InsertFacts | domain_sdk/factor_loop.py:255-269 | INSERT OR IGNORE row by row keeps the first row under each hash |
| FactorLoop.FactorDiscoveryLoop.Pause | domain_sdk/factor_loop.py:162-168 | Pausing follows the protocol |
| FactorLoop.FactorDiscoveryLoop.Resume | domain_sdk/factor_loop.py:170-176 | Resuming follows the protocol |
| FactorLoop.FactorDiscoveryLoop.Terminate | domain_sdk/factor_loop.py:178-184 | Terminating follows the protocol |
| FactorLoop.FactorDiscoveryLoop.Reconcile | domain_sdk/factor_loop.py:186-201 | Reconciling follows the protocol |
| DnaLineage.AssertAcyclic | domain_sdk/dna_repository.py:142-160 | The worklist terminates and accepts exactly when no line of ancestors is longer than the limit or leads to the child |
| DnaLineage.TurnShrinks | domain_sdk/dna_repository.py:146-160 | Each turn of the worklist lowers a weight built from the depth limit and the parent limit |
| DnaLineage.Pump | domain_sdk/dna_repository.py:146-150 | A repeated ancestor yields ancestor lines of any length, so a cycle always exceeds the limit |
| DnaLineage.RegisteringKeepsLineage | domain_sdk/dna_repository.py:127-140 | Adding a version whose parents pass the check keeps every ancestor line within the limit plus one |
| DnaLineage.SoundLineageAcyclic | domain_sdk/dna_repository.py:127-160 | A registry kept this way has no lineage cycle |
| DnaRecords.ReplayPhase | domain_sdk/dna_repository.py:20-28 | Replaying a log fixes the parity: promotion statuses have revisions 0 to 3, ACTIVE an even one from 4, DEPRECATED an odd one from 5 |
| DnaRecords.ChangeKeepsSound | domain_sdk/dna_repository.py:173-194 | A compare-and-swap keeps records equal to the replay of the log, at most one ACTIVE per DNA and the lineage sound |
| DnaRecords.TransitionExact | domain_sdk/dna_repository.py:70-79 | A transition works exactly along the declared life at the revision seen, to ACTIVE only while no other version is; it moves this row alone, one revision on, and logs it |
| DnaRecords.RegisterExact | domain_sdk/dna_repository.py:35-58 | `register` succeeds exactly for a CANDIDATE under a new key with an unused digest and at most four distinct registered parents with the claimed digests and acceptable lineage |
| DnaRecords.ActivateExact | domain_sdk/dna_repository.py:81-98 | `activate` succeeds exactly on a CANARY row at the expected revision: the unique index never gets in its way |
| DnaRecords.ActivateEffect | domain_sdk/dna_repository.py:81-98 | Afterwards the version is ACTIVE, the former ACTIVE one DEPRECATED, and nothing else moved |
| DnaRecords.RollbackExact | domain_sdk/dna_repository.py:100-118 | `rollback` succeeds exactly with an ACTIVE row, a DEPRECATED target and both revisions as expected; it then swaps exactly these two |
| DnaRecords.RevisionsTellActive | domain_sdk/dna_repository.py:100-118 | A revision taken from an ACTIVE or DEPRECATED version matches the ACTIVE row's only if it is that version |
| DnaRecords.RunsStaySound | domain_sdk/dna_repository.py:31-207 | For any callers in any order: records are the replay of the log, one version per DNA is ACTIVE, RETIRED is final, lineage stays sound |
| DnaRepository.PersistentDnaRegistry.ValidateParents | domain_sdk/dna_repository.py:127-140 | Reports the first problem of the first parent that has one: the version itself, unknown or under another digest, or a lineage the worklist rejects |
| DnaRepository.PersistentDnaRegistry.RegisterVersion | domain_sdk/dna_repository.py:35-58 | Succeeds exactly under these conditions, adding one CANDIDATE at revision 0 with its log entry; otherwise changes nothing |
| DnaRepository.PersistentDnaRegistry.TransitionTo | domain_sdk/dna_repository.py:70-79 | Succeeds exactly on an allowed step at the expected revision that makes no second ACTIVE row |
| DnaRepository.PersistentDnaRegistry.ActivateVersion | domain_sdk/dna_repository.py:81-98 | Two updates in one transaction, undone together on failure |
| DnaRepository.PersistentDnaRegistry.RollbackTo | domain_sdk/dna_repository.py:100-118 | Two updates in one transaction, undone together on failure |
| PromotionProtocol.StopKeepsGood | domain_sdk/dna_promotion.py:309-329 | Stopping a campaign keeps the controller's invariant: trail, gates passed, versions, registry |
| PromotionProtocol.EvaluateKeepsGood | domain_sdk/dna_promotion.py:271-307 | So does evaluating a stage, whatever the outcome |
| PromotionProtocol.ObserveKeepsGood | domain_sdk/dna_promotion.py:179-212 | So does recording an observation, duplicates and rejections included |
| PromotionProtocol.ActiveMeansBothGates | domain_sdk/dna_promotion.py:271-307 | A campaign that is or ever was ACTIVE passed the Shadow and the Canary gate on its own observations, each after its minimum duration |
| PromotionProtocol.GateMeans | domain_sdk/dna_promotion.py:280-291 | A gate is passed exactly with as many observations as asked for, at least one, of which enough are successful and stable and few enough risky, in counts |
| PromotionProtocol.ActiveClearedBothGates | domain_sdk/dna_promotion.py:271-307 | Whoever was ever ACTIVE has such observations in both trial stages |
| PromotionProtocol.StrictGate | domain_sdk/dna_promotion.py:286-291 | Under the strictest policy every observation of a passed stage is successful and stable and none is risky |
| PromotionProtocol.EvaluateExact | domain_sdk/dna_promotion.py:271-307 | On trial: nothing before observations and duration suffice; then promotion of campaign and version if the counts clear the thresholds, and a stop if not |
| PromotionProtocol.ObserveExact | domain_sdk/dna_promotion.py:179-212 | A harmful observation stops a trial at once; any other is recorded and evaluated |
| PromotionProtocol.StopCallsExact | domain_sdk/dna_promotion.py:214-241 | The kill switch ends trials and leaves finished campaigns alone; the manual rollback is for ACTIVE ones; both only at the revision seen |
| PromotionProtocol.StopExact | domain_sdk/dna_promotion.py:309-329 | An ACTIVE campaign with a baseline can be stopped exactly while its own version is the ACTIVE one; a refused stop changes nothing |
| Successions.ReplacedCampaignsCannotRollBack | domain_sdk/dna_promotion.py:309-329 | After any number of successive promotions from an empty registry every campaign but the first is ACTIVE with a baseline, yet only the last one can be rolled back |
| PromotionProtocol.RollbackRestoresBaseline | domain_sdk/dna_promotion.py:309-329 | A successful rollback demotes the campaign's version and leaves exactly the recorded baseline ACTIVE |
| PromotionProtocol.StopWithoutBaseline | domain_sdk/dna_promotion.py:317-329 | Without a baseline the stop succeeds and leaves the registry, and so the ACTIVE version, alone |
| PromotionProtocol.StopOnTrial | domain_sdk/dna_promotion.py:321-329 | A campaign in Shadow or Canary can always be stopped; its version is then RETIRED if still on trial |
| PromotionProtocol.ObservationReplayed | domain_sdk/dna_promotion.py:185-206 | Sending an accepted observation again while the stage lasts changes nothing |
| PromotionProtocol.RecordingKeepsGates | domain_sdk/dna_promotion.py:187-204 | Later observations never undo a gate already passed |
| DnaPromotion.DnaPromotionController.StartCampaign | domain_sdk/dna_promotion.py:123-177 | The tables and the error are those of the start step: success exactly for a repeated request or a selected, admissible candidate with a free slot, which then is in SHADOW with the version ACTIVE before as baseline |
| PromotionProtocol.StartExact | domain_sdk/dna_promotion.py:123-177 | When `start` succeeds, on all tables and requests |
| PromotionProtocol.StartKeepsGood | domain_sdk/dna_promotion.py:123-177 | Starting keeps the controller's invariant, also when it fails after registry work was committed |
| PromotionProtocol.AdmitExact | domain_sdk/dna_promotion.py:144-165 | A candidate reaches SHADOW exactly if it is not beyond it yet, or new and acceptable to the registry |
| PromotionProtocol.AdmitGrows | domain_sdk/dna_promotion.py:144-165 | Whatever comes of it, admission drops no row, leaves RETIRED ones alone, only appends to the log, and makes nobody ACTIVE |
| PromotionRuns.RunsProgress | domain_sdk/dna_promotion.py:123-346 | Over every run of start, observe, kill, evaluate and rollback calls: records replay from a log that only grows, one version per DNA is ACTIVE, RETIRED is final, observations and campaign histories only grow, finished campaigns stay as they are, and whoever became ACTIVE has a campaign that was |
| PromotionRuns.ActiveOnlyThroughGates | domain_sdk/dna_promotion.py:271-307 | From an empty registry, every version ever ACTIVE has a campaign whose observations in both trial stages were enough and cleared the thresholds in counts |
| PromotionRuns.NoHarmBehindActive | domain_sdk/dna_promotion.py:179-307 | Over every run: no harmful observation stands behind a campaign that was ever ACTIVE, whatever the policy, and under the strictest one all of its trial was successful and stable |
| DnaPromotion.DnaPromotionController.AdmitCandidate | domain_sdk/dna_promotion.py:144-165 | Registry and error are those of the admission step; success exactly for an admissible candidate |
| DnaPromotion.DnaPromotionController.ObserveOne | domain_sdk/dna_promotion.py:179-212 | The tables and the error are those of the observation step, and the invariant holds |
| DnaPromotion.DnaPromotionController.StopCampaign | domain_sdk/dna_promotion.py:309-329 | The tables and the error are those of the stop step, and the invariant holds |
| DnaPromotion.DnaPromotionController.EvaluateStage | domain_sdk/dna_promotion.py:271-307 | The tables and the error are those of the evaluation step, and the invariant holds |
| DnaPromotion.DnaPromotionController.KillCampaign | domain_sdk/dna_promotion.py:214-223 | The kill switch follows its checks and then the stop step |
| DnaPromotion.DnaPromotionController.RollBackCampaign | domain_sdk/dna_promotion.py:232-241 | A manual rollback follows its checks and then the stop step |
| DnaPromotion.DnaPromotionController.EvaluateCampaign | domain_sdk/dna_promotion.py:225-230 | A manual evaluation follows its revision check and then the evaluation step |
| SelectionRules.DominanceTransitive | domain_sdk/dna_selection.py:254-262 | Dominance is transitive |
| SelectionRules.DominanceAsymmetric | domain_sdk/dna_selection.py:254-262 | Dominance is asymmetric, so with transitivity a strict partial order |
| SelectionRules.DominanceMeans | domain_sdk/dna_selection.py:254-262 | One vector dominates another exactly when it is at least as good in each of the eight scores, lower being better for cost, latencies and risk, and not the same |
| SelectionRules.NoveltyInRange | domain_sdk/dna_selection.py:269-277 | Novelty, one minus the largest Jaccard similarity to anybody else, lies in [0, 1] |
| SelectionRules.NoveltyIsTight | domain_sdk/dna_selection.py:269-277 | Nobody else shares more than one minus the novelty of the edits, and somebody shares exactly that much |
| SelectionRules.NoveltyExtremes | domain_sdk/dna_selection.py:269-277 | Novelty is 0 exactly when somebody else makes the same edits, and 1 exactly when nobody shares any |
| SelectionRules.EveryDominatedHasAFrontMember | domain_sdk/dna_selection.py:214-217 | Every DOMINATED member is dominated by a member of the front, itself SELECTED or at CAPACITY |
| SelectionRules.SelectedMutuallyNonDominated | domain_sdk/dna_selection.py:214-225 | Selected members do not dominate each other |
| SelectionRules.SelectedHasNoBetterRival | domain_sdk/dna_selection.py:192-251 | No survivor has a rival, original and passed, that is at least as good in every score and better in one |
| SelectionRules.SurvivorsComeFirst | domain_sdk/dna_selection.py:218-225 | A survivor comes before everybody sufficiently novel cut for capacity: by novelty, successes, evidence, then id |
| SelectionRules.RankIsPosition | domain_sdk/dna_selection.py:218-225 | In the ranking exactly the earlier candidates are ahead |
| SelectionRules.SurvivorCount | domain_sdk/dna_selection.py:222-225 | The number of survivors is the number of qualified candidates capped at `maximum_survivors` |
| SelectionRules.OrderDoesNotMatter | domain_sdk/dna_selection.py:192-251 | The report is determined by the population as a set, not by the order of the request |
| DnaSelection.NoveltyOf | domain_sdk/dna_selection.py:269-277 | The loop computes the novelty of a candidate within its population |
| DnaSelection.Sift | domain_sdk/dna_selection.py:199-213 | The first pass separates duplicates of earlier content, hard rejects and the eligible |
| DnaSelection.SiftedGroups | domain_sdk/dna_selection.py:199-213 | In id order these groups are: not canonical, canonical but failing, and eligible |
| DnaSelection.QualifiedIsRanking | domain_sdk/dna_selection.py:218-223 | Sorting the front and dropping the insufficiently novel gives the strict ranking of the qualified |
| DnaSelection.Select | domain_sdk/dna_selection.py:192-251 | Fails exactly when nobody qualifies; otherwise reports every candidate once in id order with the one disposition, rank, novelty and reason the population gives it |
| DnaSelection.ReportMeans | domain_sdk/dna_selection.py:228-249 | In a report a candidate is a duplicate exactly behind an earlier one of the same content, rejected exactly for its replay, dominated exactly by a better admissible rival, with the matching rank and reason |
| FitnessStatistics.WilsonBounds | domain_sdk/dna_fitness.py:304-309 | The bound lies between 0 and the success rate, is 0 only at rate 0 and below the rate otherwise; the clamp at 0 is never needed |
| FitnessStatistics.WilsonIsScoreBound | domain_sdk/dna_fitness.py:304-309 | The bound is the least success probability the score test at z does not reject |
| FitnessStatistics.WilsonMonotone | domain_sdk/dna_fitness.py:304-309 | One more success never lowers the bound |
| WilsonScore.LowerIsLeastPlausible | domain_sdk/dna_fitness.py:304-309 | The closed formula solves the score inequality from below |
| WilsonScore.LowerRange | domain_sdk/dna_fitness.py:304-309 | The range of the formula in terms of rate and margin |
| FitnessStatistics.P95Splits | domain_sdk/dna_fitness.py:220-221 | The 95th-percentile pick is a sample with at least ceil(0.95 n) samples at or below it and fewer strictly below |
| FitnessStatistics.P95Means | domain_sdk/dna_fitness.py:220-221 | At least 95 of 100 samples are at or below the value picked, fewer than that strictly below |
| FitnessStatistics.RatesMean | domain_sdk/dna_fitness.py:204-226 | A snapshot's rates are the shares of successful, risky and stable rows, its bound that of the success count |
| FitnessStatistics.StatsMean | domain_sdk/dna_fitness.py:204-226 | Its costs, latencies and scores are the averages over the rows, its percentile that of the latencies |
| FitnessStatistics.StatsInRange | domain_sdk/dna_fitness.py:204-226 | Every snapshot satisfies the table's range checks: rates, bound, scores in [0, 1], latency not negative |
| FitnessStatistics.StatsPermute | domain_sdk/dna_fitness.py:197-226 | A snapshot's numbers do not depend on the order in which its rows are read |
| DnaFitness.ReadinessSettles | domain_sdk/dna_fitness.py:292-301 | On the same samples time can only turn OBSERVING into READY |
| DnaFitness.ReadinessMeans | domain_sdk/dna_fitness.py:292-301 | Too few samples are COLLECTING, a risk above the limit blocks whatever the time, otherwise the end of the window decides |
| DnaFitness.DnaFitnessProjector.Project | domain_sdk/dna_fitness.py:105-136 | A new outcome is recorded and projected once; repeating it changes nothing; another attribution, a foreign window or an unattributed outcome is refused; every snapshot stays what its rows say |
| DnaFitness.DnaFitnessProjector.Refresh | domain_sdk/dna_fitness.py:142-146 | Refreshing recomputes the same numbers and advances the revision by one |
| FsaStatistics.RenderedShorter | domain_sdk/factor_fsa.py:47-69 | The rendered skeleton of a proper subtree is shorter than that of the whole tree, whatever the operators are called |
| FsaStatistics.SubtreeKeysDistinct | domain_sdk/factor_fsa.py:57-64 | The subtrees of one definition have pairwise different skeleton keys, even where unrelated trees share one |
| FsaStatistics.MergedSum | domain_sdk/factor_fsa.py:307-320 | Adding two dictionaries adds their totals |
| FactorFsa.CountBatch | domain_sdk/factor_fsa.py:221-244 | The record of a round counts, per skeleton, the definitions containing it, the accepted ones and their window signatures; its total is the number of operator nodes |
| FactorFsa.WindowOfRun | domain_sdk/factor_fsa.py:203 | Keeping the last n rounds round by round is keeping the last n of the whole run |
| FsaRuns.RunsKeepSound | domain_sdk/factor_fsa.py:203-263 | After any run of rounds, interceptions and releases the window is the last `window_rounds` records of the run, so every statistic sums over these; versions are 1..n in issue order and the active bans are the unreleased history |
| FsaRuns.RunsKeepRates | domain_sdk/factor_fsa.py:322-351 | After any run every recorded ban carries a share and an acceptance rate within [0, 1], and every record of the window counts some batch |
| FsaRuns.RunsKeepHistory | domain_sdk/factor_fsa.py:215-303 | Over any run history entries are only appended or marked as released |
| FactorFsa.FsaTracker.Aggregate | domain_sdk/factor_fsa.py:307-320 | The aggregated dictionaries are the sums over the window, per skeleton and in total |
| BanList.OneActivePerSkeleton | domain_sdk/factor_fsa.py:348-349 | At most one ban of a skeleton is unreleased |
| BanList.ActiveIsUnreleased | domain_sdk/factor_fsa.py:293-297 | A skeleton is active exactly when the history holds an unreleased ban of it |
| BanList.IssuedKeepsBook | domain_sdk/factor_fsa.py:334-350 | Issuing keeps versions 1..n in issue order and the active map equal to the unreleased history |
| BanList.RetiredKeepsBook | domain_sdk/factor_fsa.py:380-396 | Retiring changes exactly the ban's own history entry and keeps the same invariant |
| BanList.RetiredEntry | domain_sdk/factor_fsa.py:380-396 | The entry of a ban that ends gets its round, reason and note; what it was issued for and every other entry stay |
| FactorFsa.VerdictIs | domain_sdk/factor_fsa.py:246-250 | Issuing and then releasing over all skeletons amounts to one rule per skeleton, streak counter included |
| FactorFsa.CrowdingMeans | domain_sdk/factor_fsa.py:325-333 | In counts: a ban is due exactly with enough observations in the window, at least the threshold's share of them, and too few accepted |
| FactorFsa.RareMeans | domain_sdk/factor_fsa.py:358-367 | In counts: a skeleton is rare in a round below the release share of its observations |
| FactorFsa.ValueReturnedMeans | domain_sdk/factor_fsa.py:368-370 | In counts: its value returned when enough of its observations in the window were accepted |
| FactorFsa.FsaTracker.Observe | domain_sdk/factor_fsa.py:215-263 | The new state and the summary are the round's functions of the old state; exactly the skeletons the rule bans are active, streaks follow the rule, history only grows or is marked released, and active = before + issued - released |
| FactorFsa.FsaTracker.IssueBans | domain_sdk/factor_fsa.py:322-351 | Exactly the crowding, not yet active skeletons get a ban, in key order, and nothing below the minimum number of observations |
| FactorFsa.IssuedInOrder | domain_sdk/factor_fsa.py:327-350 | The new history entries stand in the order of their skeletons, behind all earlier ones |
| FactorFsa.FsaTracker.EvaluateReleases | domain_sdk/factor_fsa.py:353-378 | Exactly the bans whose value returned or whose streak is long enough are released |
| FactorFsa.FsaTracker.Intercept | domain_sdk/factor_fsa.py:267-289 | A definition is refused exactly when one of its subtrees is banned, or when its signature is new and its skeleton's variants have reached the cap |
| FactorFsa.InterceptMeans | domain_sdk/factor_fsa.py:281-290 | Without a ban a definition is refused exactly when its skeleton was seen with as many window signatures as allowed and never with this one |
| FactorFsa.FsaTracker.Release | domain_sdk/factor_fsa.py:299-303 | A manual release works exactly on an active skeleton and retires just that ban |
| FactorFsa.RestoreTracker | domain_sdk/factor_fsa.py:431-472 | The restored tracker, or the error, is what the payload determines; for the snapshot of a sound tracker under the same policy it is that tracker |
| FactorFsa.RestoreUndoesSnapshot | domain_sdk/factor_fsa.py:408-472 | Snapshot and restore under the same policy give back round, window, history, active bans, streaks and next version exactly |
| FsaRuns.RestoredAnswersAlike | domain_sdk/factor_fsa.py:408-472 | A tracker restored from a snapshot taken at any point of a run answers every later sequence of calls as the original does, and ends in the same state |
| FactorFsa.RecoveredIsActive | domain_sdk/factor_fsa.py:455-465 | In a sound ban list the bans recovered from the history are exactly the active ones, and every listed skeleton is found |
| LargestRemainder.Allocate | domain_sdk/factor_generation.py:68-84 | Fails exactly for a negative total; otherwise the counts add up to it, each is the floor of its share or one more, only positive remainders are rounded up, and only the largest, ties by declaration order |
| LargestRemainder.RoundedUpIsPositive | domain_sdk/factor_generation.py:74-83 | The units left over are fewer than the positive remainders, so a zero remainder is never rounded up |
| FactorTrees.WellFormedIsChain | domain_sdk/factor_generation.py:148-173 | Every well-formed tree is a chain of operators ending in one field |
| FactorTrees.NodeAtIs | domain_sdk/factor_generation.py:167-173 | Subtree number i of a chain is the chain without its first i operators |
| FactorTrees.WithInputAtIs | domain_sdk/factor_generation.py:294-311 | Grafting at an operator keeps the operators down to it and continues with the graft |
| FactorGeneration.RandomTree | domain_sdk/factor_generation.py:180-189 | Random trees are chains over the vocabulary of at most the depth limit |
| FactorGeneration.Mutated | domain_sdk/factor_generation.py:278-292 | Mutation stays in the vocabulary, keeps the operators and changes the field |
| FactorGeneration.Crossed | domain_sdk/factor_generation.py:294-311 | Crossover stays in the vocabulary and is a prefix of one parent's chain followed by a suffix of the donor's |
| FactorGeneration.ShiftedWindow | domain_sdk/factor_generation.py:192-203 | The shifted window is a different one, at most `step` positions away |
| FactorGeneration.Perturbed | domain_sdk/factor_generation.py:313-322 | Perturbation stays in the vocabulary and moves one window by at most `step` positions, or mutates a parent without operators |
| FactorGeneration.FactorCandidateFactory.Native | domain_sdk/factor_generation.py:256-262 | A strategy's batch has the asked size, is well formed over the vocabulary, each candidate made as its strategy says, and becomes random exploration without parents |
| FactorGeneration.FactorCandidateFactory.Mechanism | domain_sdk/factor_generation.py:328-350 | Raises exactly when the answer is no list or one of the proposals to be used cannot be made a dictionary; otherwise the batch has the asked size, the proposals first and random exploration for the rest, also when the proposer failed or there is none |
| FactorGeneration.StringProposalBreaks | domain_sdk/factor_generation.py:339-342 | A list holding a string instead of a tree is such an answer as soon as one proposal is asked for |
| FactorGeneration.FactorCandidateFactory.Generate | domain_sdk/factor_generation.py:231-244 | Raises exactly when the mechanism strategy gets a share and the proposer's answer breaks it; otherwise exactly `count` candidates, strategy by strategy in declaration order with the allocated counts, all but outside proposals well formed over the vocabulary |
| FactorGeneration.FactorCandidateFactory.RebindQuota | domain_sdk/factor_generation.py:221-223 | The new ratios are installed, and nothing else changes |
| FactorGeneration.FactorCandidateFactory.SetWindowStep | domain_sdk/factor_generation.py:225-229 | The new step is installed, and nothing else changes |
| FactorGeneration.ParentPool.Add | domain_sdk/factor_generation.py:103-112 | Known content is refused; otherwise the newest `capacity` distinct entries stay in order of arrival |
| FactorReview.UnknownReasonsExact | domain_sdk/factor_review.py:228-247 | No unknown field, operator or window is reported exactly for trees over the vocabulary |
| FactorReview.NoReasonsExact | domain_sdk/factor_review.py:228-247 | No reason at all exactly for trees over the vocabulary with every window within the policy |
| FactorReview.HasRedundantIdentity | domain_sdk/factor_review.py:249-260 | The loop finds exactly an operator directly on itself with the same window or idempotent |
| FactorReview.Resolve | domain_sdk/factor_review.py:262-277 | The recursive walk computes the dimension and notices exactly when some operator does not accept its input |
| FactorReview.DimensionOfChain | domain_sdk/factor_review.py:262-277 | A chain has the dimension its outermost declaring operator gives it, and its field's when none declares one |
| FactorReview.OperatorDepth | domain_sdk/factor_review.py:279-286 | The loop counts the operators |
| FactorReview.Review | domain_sdk/factor_review.py:182-201 | A candidate is accepted exactly when it passes every gate; malformed is reported exactly for ill-formed values, and a value that is no mapping is shown as an empty definition |
| FactorReview.ReviewBatch | domain_sdk/factor_review.py:203-226 | One outcome per definition; accepted exactly when acceptable and not a repeat within the batch; what is no mapping is shown as an empty definition |
| FactorReview.AcceptedAreFresh | domain_sdk/factor_review.py:203-226 | Accepted definitions are pairwise different and not already known |
| FactorReview.GeneratedIsKnown | domain_sdk/factor_review.py:130-247 | Everything the factory draws itself is well formed and raises no unknown-name reason |
| GraphMetrics.VisitExact | domain_sdk/dna_composer.py:267-287 | The visit terminates and succeeds exactly when no way down from the key meets a cycle or a missing reference |
| GraphMetrics.VisitUnfolds | domain_sdk/dna_composer.py:267-287 | On success the numbers are the height and the node count of the full unfolding, which is a finite tree |
| GraphMetrics.UnfoldingUnique | domain_sdk/dna_composer.py:267-287 | A key has only one unfolding |
| GraphMetrics.DepthIsLongestWalk | domain_sdk/dna_composer.py:267-287 | The depth is the length of the longest way down |
| DnaComposer.Compose | domain_sdk/dna_composer.py:69-156 | Accepts exactly what passes every limit on shape, status, governance, graph, timeout and parallelism, the policy range of a workflow and the final validation; the result covers the children's timeout and parallelism |
| DnaComposer.ValidateComposed | domain_sdk/dna_composer.py:138-150 | The final validation of the composed workflow fails exactly if it refers to itself or the gate of a parallel composition shares a component's alias |
| DnaComposer.ComposedResolves | domain_sdk/dna_composer.py:138-150 | References of the composed workflow resolve exactly if it is well named |
| DnaComposer.ListedOrderWorks | domain_sdk/dna_composer.py:200-221 | The nodes of a composition can run in the order they are listed, so its graph never has a cycle |
| DnaComposer.BuildNodes | domain_sdk/dna_composer.py:200-221 | The node loop yields a chain of components, or a gate with every component as a branch of its own |
| DnaComposer.ComposedNodes | domain_sdk/dna_composer.py:200-221 | Every component becomes one sub-workflow node without retries, waiting for the one before it or for the fail_fast gate |
| DnaComposer.Collect | domain_sdk/dna_composer.py:95-120 | The component loop stops at the first component that is not composable or whose input does not fit, and otherwise gathers the union of capabilities, whether all skills are permitted, and sums and maxima of the budgets |
| DnaComposer.CompositionWithinLimits | domain_sdk/dna_composer.py:121-127 | Stored under a new key the composition is again finite and complete, within the node limit and one level deeper than its components |
| Claims.AddedKeepsSound | active_agent_platform/semantic_memory.py:79-119 | Adding a claim keeps links symmetric, live conflicts linked, validated claims consistent and claims unique, and only grows links |
| Claims.PromotingKeepsSound | active_agent_platform/semantic_memory.py:127-144 | Validating an uncontradicted candidate keeps all of this |
| Claims.ExpiringKeepsSound | active_agent_platform/semantic_memory.py:146-157 | So does expiring |
| Claims.ContradictionIsForever | active_agent_platform/semantic_memory.py:137-138 | A contradicted candidate stays contradicted, so it is never promoted, even after its rival expired |
| ClaimRuns.RunsStaySound | active_agent_platform/semantic_memory.py:79-164 | Over any run of proposals, promotions and expiries, failed ones included, contradictions stay symmetric and linked, validated claims stay consistent, and no record or link is lost |
| ClaimRuns.ContradictedNeverValidated | active_agent_platform/semantic_memory.py:127-144 | A claim contradicted before its validation is never validated by any later run |
| SemanticMemory.SemanticMemoryService.Propose | active_agent_platform/semantic_memory.py:187-195 | Succeeds exactly for an unexpired claim with evidence of which no record says the same on the same data; it and every live claim that says otherwise of the same key and scope are linked; failures change nothing |
| SemanticMemory.SemanticMemoryService.Promote | active_agent_platform/semantic_memory.py:127-144 | Promotes exactly an unexpired, uncontradicted candidate whose evidence is present; an expired one becomes EXPIRED; nothing else changes |
| SemanticMemory.SemanticMemoryService.ExpireDue | active_agent_platform/semantic_memory.py:146-157 | Expires exactly the live records past their date, leaving none |
| SemanticMemory.SemanticMemoryService.ValidatedNow | active_agent_platform/semantic_memory.py:159-164 | Claims of the same key and scope that a reader gets say the same |
| BoundedStore.InsertedIsTop | active_agent_platform/memory.py:214-234 | Inserting into the greatest entries of what came before gives the greatest entries of everything |
| BoundedStore.OnlineIsTop | active_agent_platform/memory.py:214-234 | With fresh ids and no expiry the store holds exactly the `capacity` greatest entries ever offered by importance, time and id |
| BoundedStore.RebuildAgreesExactly | active_agent_platform/memory.py:174-191 | Rebuilding from the same facts keeps the same entries exactly when no tie in importance and time straddles the cut |
| BoundedStore.TiesDisagree | active_agent_platform/memory.py:174-191 | Two tied entries and room for one: eviction keeps the larger id, rebuilding the smaller |
| WorkingMemory.WorkingMemory.Reclaim | active_agent_platform/memory.py:155-167 | Exactly the entries past their time are dropped and counted |
| WorkingMemory.WorkingMemory.Insert | active_agent_platform/memory.py:214-234 | A known id is refused; otherwise the least entry is evicted when there are too many; stored + rejected = size + evicted + expired throughout, up to what `rebuild` and `clear` add or drop; the entry joins the list of offered ones |
| WorkingMemory.WorkingMemory.HoldsExactlyTheGreatest | active_agent_platform/memory.py:119-234 | In every state reached by fresh ids without expiry the store holds the one set of the `capacity` greatest entries among all those offered, refused and evicted ones included |
| WorkingMemory.WorkingMemory.KeptOutranksLost | active_agent_platform/memory.py:214-234 | Whatever was lost was less important than all that was kept, or as important and older, or tied with a smaller id |
| WorkingMemory.WorkingMemory.Remember | active_agent_platform/memory.py:119-140 | Succeeds exactly for a positive lifetime, a non-empty id and kind and an importance within [0, 1], and then inserts an entry created now; otherwise nothing changes |
| WorkingMemory.WorkingMemory.Get | active_agent_platform/memory.py:142-144 | Returns exactly an entry that is present and not expired |
| WorkingMemory.WorkingMemory.Clear | active_agent_platform/memory.py:169-172 | The store is empty afterwards and its version moves only if it was not before; no counter changes |
| WorkingMemory.WorkingMemory.Rebuild | active_agent_platform/memory.py:174-191 | Fails exactly on an invalid fact or a repeated live id; otherwise keeps the first `capacity` live facts and lists their ids by importance, time and id |
| WorkingMemory.WorkingMemory.Candidates | active_agent_platform/memory.py:174-183 | The loop over the facts collects exactly those still alive, unless a fact is invalid, expired or not, or a live id comes twice |

## Left out

- True interleaving: parallel branches run one after another, a fail_fast failure may leave later branches partly run,
  and an asyncio cancellation lands only while an adapter runs.
- WorkflowRuntime.Execution.Execute: storing a node's output is assumed not to raise (a raise would leave that node
  RUNNING), and the executor is modelled for workflows in which no node depends on a compensation node (it would wait for
  one nobody has asked for, and raise) and `max_attempts` is at least 1 (with fewer a node counts as FAILED unstarted).
- WorkflowRuntime.Execution.RunAttempt: the output of the attempt, and so a failure to store it.
- WorkflowRuntime.Execution.RunSubWorkflow: the child run's own rows live in a separate execution object; artifact storage
  and input resolution are nondeterministic failures.
- Workflow definitions: schema checks, permissions, timeouts, expression parsing and output mappings; validation without a
  catalog of known workflows skips the sub-workflow lookup and is not modelled.
- FactorAdaptation.QuotaAlwaysExists: requires positive base ratios summing to 1; `QuotaNeverFailsExactly` is the statement
  for all accepted ones.
- Backtest: Sharpe scaling, failure-mode labels, synthetic panels and digests of specifications and reports.
- FactorLoop hooks, tested-hash queries, and temp-file handling of the pointer write (a crash leaves the old pointer).
- DNA documents, envelope digests, correlation ids, and the Agent and Organization registries, which repeat the same shape.
- DnaPromotion controller: routing of requests to baseline or canary, and checks against the stored selection (an input here).
- DnaSelection: storage and reloading of reports, and the rounding of novelty.
- DnaFitness: validation of an outcome against stored runs (an input here).
- DnaComposer.Compose: comparing input mappings and schemas and resolving the output mapping (their verdicts are inputs
  here), and the patterns of identifiers and versions.
- FactorFsa: malformed definitions are refused before any state changes, so definitions are well formed here; the JSON form
  of a snapshot is not modelled.
- FactorGeneration: deep copies are values, so aliasing between parents and children is not modelled; content hashes are the
  content; `generate_with_strategy` adds nothing to the batch builders.
- FactorGeneration.ShiftedWindow: the fallback for no window in reach is never taken, since a vocabulary has two windows.
- SemanticMemory: statements, summaries, conditions and ordering of query results.
- WorkingMemory: contents, freezing of mappings, context snapshots, and timestamps without a time zone.
- WorkflowRuns: usage figures, correlation ids and limits on identifiers.
- Metrics, health, tracing, HTTP, CLI, plugins, language-model adapters and data ingestion.
