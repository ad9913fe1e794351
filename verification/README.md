# A verified model of the AEP control plane

AEP runs automated development workflows: it admits model calls against budgets, leases checkouts to workers, builds
contexts for agents, runs validation commands in containers, and decides from the stored evidence whether a workflow
is accepted. This project models the parts of it that are ledgers, leases, scanners and graphs, and proves what they
are for. `dafny verify dfyconfig.toml` checks everything.

`Wrappers` and `Resources` hold what several parts share. Pure code is modelled by functions, protocols by state
machines whose steps are the atomic store accesses of the code, and code that updates objects or runs loops by classes
and methods that are proved against those functions or directly against what they promise.

- **Execution budgets** (`Money`, `BudgetLedger`, `BudgetRuns`, `BudgetMisuse`, `BudgetCeilings`, `BudgetGrants`,
  `BudgetMoney`, `BudgetAdmission`, `BudgetConsumption`, `BudgetTask`, `BudgetResolution`). Three shared records
  (Workflow, Task, Agent) and any number of budgets that reserve, settle and release on them in any order. Money is
  counted in quanta of 1e-12 USD; a declared limit is a real number of quanta, and rounding is half to even.
- **Checkouts** (`CheckoutRecords`, `CheckoutRuns`, `CheckoutLeases`, `CheckoutRegistry`, `CheckoutWorkers`,
  `CheckoutStates`, `CheckoutStarts`, `CheckoutSqlWorkers`). The dictionary and the SQL registry as atomic steps and
  as classes, and manager workers with their heartbeat threads, interleaved at every call of either registry with
  unrelated clocks.
- **Status scanner** (`Utf8`, `StatusLines`, `StatusText`, `StatusScanner`). The chunk-fed scanner against the whole
  document, whose lines, values and titles are described apart from the functions that find them.
- **Replay** (`ReplayReferences`, `ReplayCollection`, `ReplayOutcome`, `OverrideText`, `ReplayOverrides`). The
  worklist that closes a reference graph, the rewriting of versioned references, and overrides as text and as a set.
- **Context selection** (`Sums`, `ContextElements`, `CanonicalJson`, `ContextSelection`, `ContextPackage`).
- **Acceptance** (`Predecessors`, `AcceptanceEvidence`, `AcceptanceFaults`, `Acceptance`).
- **Command evidence** (`ToolRuntime`, `DockerEvidence`, `BuildTestEvaluation`). Validation results from the processes
  in the container to the statuses that are evaluated.
- **Invocations and suite runs** (`RuntimeStore`, `AgentInvocation`, `AgentEndings`, `AgentIdentity`,
  `InvocationLedger`, `InvocationCharges`, `DockerInvocation`, `SuiteRuns`, `SuiteVerdicts`). `InvocationLedger` runs
  invocations and the ledger they charge together.
- **Key reading and message encoding** (`Der`, `DerReading`, `Signer`), after ITU-T X.690 and RFC 8017.

## What turned out false, and exactly when it holds

- A budget does not keep its accounts under every sequence of calls: a record without an open reservation takes an
  invocation out of another budget's hold (`BudgetMisuse.StrayRecordTakesAReservation`), and a second admitted
  preflight leaks the first reservation (`BudgetMisuse.SecondPreflightLeaksTheFirst`).
  `BudgetRuns.AccountsAreKeptExactly` gives the exact condition for one call; a refused preflight moves nothing
  (`BudgetRuns.RefusedPreflightMovesNothing`).
- The coordinator of model calls does not prevent such a second preflight: a caller that retries a crashed call on the
  same budget object leaks its first reservation (`InvocationLedger.RetryLeaks`). This is a misuse the function
  admits; the callers in the repository prepare a new budget for every invocation and are covered by
  `InvocationLedger.InvocationsKeepTheLedger`. A step of a call together with its ledger keeps the accounts exactly if
  it does not ask a budget on which a reservation is still open (`InvocationLedger.StepKeepsExactly`), as is always so
  when each call has a budget of its own (`InvocationLedger.InvocationsKeepTheLedger`).
- A call that loses the claim of its pair is returned the stored invocation without comparing inputs: two calls with
  different inputs that both read before either is stored can so share one result
  (`AgentIdentity.LoserMayBeGivenAnother`). Every other call that returns had the inputs of what is stored
  (`AgentIdentity.InvokedForItsInputs`).
- A monetary limit is not always kept. The remainder is rounded half to even before it is compared, so a limit with a
  fraction of a quantum of one half or more can be passed by one quantum. `BudgetMoney.MoneyIsKeptExactly` gives the
  exact condition; `BudgetMoney.OneGrantOvershoots` and `BudgetMoney.TwoGrantsOvershoot` give the runs.
- The guard of a cache or worktree mutation and the mutation behind it are two steps. The guarded mutations are fenced
  under every interleaving; the started ones are not, as a worker may stall between the two
  (`CheckoutStarts.GuardedWorkerMayStartLate`). In every reachable state whose started mutations are still in order,
  all orders of the waiting starts keep the fences ordered exactly if no waiting worker has been overtaken and no two
  of them contend for an execution or a cache (`CheckoutStarts.PendingStartsExactly`).
- The two registries differ on releasing an absent cache claim and, outside what the manager does, on an update that
  takes another execution's workspace or branch (`CheckoutRuns.TablesRefineMemory`,
  `CheckoutRuns.UpdatesAgreeExactly`, `CheckoutRuns.RebindingExample`).
- A restored tool result differs from the original when its failure message is missing or superfluous
  (`ToolRuntime.RestoringIsExact`, with an input in `ToolRuntime.RestoringAddsAMessage`); it is still stored the same
  way. Only an adapter's own result can be like that (`ToolRuntime.InvokeTool`); those of the Docker tool never are
  (`BuildTestEvaluation.Validate`).
- Commands are not always reported with their true status. A failed container cleanup hides a timeout
  (`BuildTestEvaluation.CleanupHidesTimeout`). A validation that never starts, that raises while it is waited for,
  whose complete output is refused, or that runs out of time and cannot be stopped is reported as unusable
  (`BuildTestEvaluation.LostRuns`). All statuses are true exactly if none of this happens
  (`BuildTestEvaluation.TrueExactly`).
- The workspace entry of a replayed collection is not rewritten, so it can name a replaced version:
  `ReplayOutcome.WorkspaceMayNameReplacedVersion` is a replay that overrides a default Policy of its Workspace. The
  entry agrees with the listed resource exactly if it mentions none (`ReplayOutcome.Reconstructed`).
- Acceptance evidence with a dependency order that spells the fixed chain can be refused
  (`Predecessors.ListedOrderDecides`): the order of the walk decides (`Predecessors.FindPredecessors`).
- The status scanner does not always end as the whole document does: `StatusScanner.Scan` says exactly when it raises
  its limit, which can depend on where the chunks end (`StatusScanner.CutsMatter`).
- The key reader accepts length octets that DER forbids (`Der.AcceptsLongForm`); re-encoding gives the input back
  exactly if all its length fields are minimal (`Der.ReencodingIsExact`).

## Model

| member | source | states |
|---|---|---|
| Money.HalfEven | src/aep/execution_budgets.py:1421-1427 | the rounded value is within half a quantum, and even at a tie: `quantize` with the default rounding |
| Money.HalfEvenMonotone | src/aep/execution_budgets.py:1421-1427 | rounding never reverses the order of two amounts |
| Money.RemainingCostOvershoot | src/aep/execution_budgets.py:993-1012 | charging all of a rounded remainder passes the limit by less than one quantum, and not at all when the limit rounds down |
| BudgetLedger.PlanFits | src/aep/execution_budgets.py:875-991 | after the bounded repair loop the plan grants at least one attempt and holds no more invocations, input or output than every scope has left, shared evenly by the attempts |
| BudgetLedger.ShortageHasAScope | src/aep/execution_budgets.py:437-472 | a hold above the least remaining cost always has a responsible scope, and only then: the assertion in preflight cannot fail |
| BudgetRuns.SettlementNeverClamps | src/aep/execution_budgets.py:577-605 | in an accounted ledger each charged record holds at least the reservation being settled, so no clamp bites and no other budget's hold is consumed |
| BudgetRuns.PreflightBalance | src/aep/execution_budgets.py:474-520 | a preflight keeps an account balanced exactly if it is refused or nothing open is overwritten |
| BudgetRuns.RecordBalance | src/aep/execution_budgets.py:524-605 | a settlement keeps an account balanced exactly if it settles its own hold, or nothing is held that the assumed invocation could be taken from |
| BudgetRuns.ReleaseBalance | src/aep/execution_budgets.py:685-711 | a release always keeps every account balanced |
| BudgetRuns.AccountsAreKeptExactly | src/aep/execution_budgets.py:397-711 | one call that is not refused keeps all accounts balanced if and only if it is no preflight over an open reservation and no record without one, unless nothing is held |
| BudgetRuns.RefusedPreflightMovesNothing | src/aep/execution_budgets.py:437-472 | a refused preflight opens, closes and moves nothing in any account |
| BudgetMisuse.StrayRecordTakesAReservation | src/aep/execution_budgets.py:546-551 | a run from a fresh ledger in which a record without a preflight takes the invocation another budget has reserved |
| BudgetMisuse.SecondPreflightLeaksTheFirst | src/aep/execution_budgets.py:516-522 | a run from a fresh ledger in which a second preflight leaves a reservation that no release gives back |
| BudgetRuns.RunsStayAccounted | src/aep/execution_budgets.py:397-711 | over every interleaving of any number of budgets each account holds exactly the live reservations charging it plus the retained amounts |
| BudgetRuns.InitialIsAccounted | src/aep/execution_budgets.py:782-814 | a fresh ledger is accounted, so the run results start somewhere |
| BudgetCeilings.AdmissionFits | src/aep/execution_budgets.py:437-520 | an admitted grant leaves every scope within its invocation, token and money limits |
| BudgetCeilings.SettledIsHonest | src/aep/execution_budgets.py:577-683 | a settled record is flagged overrun or within its limits |
| BudgetCeilings.RunsStayWithinLimits | src/aep/execution_budgets.py:397-711 | in every reachable ledger, disciplined or not, an unflagged scope has consumed plus reserved within its limits |
| BudgetGrants.GrantsPreventOverruns | src/aep/execution_budgets.py:849-873 | when every record stays within its grant, no invocation or token overrun ever occurs |
| BudgetGrants.CoordinatorChargesFit | src/aep/agent_invocation.py:481-518 | the failed and the successful charge the coordinator builds are within the grant when the provider keeps to its attempts and tokens |
| BudgetGrants.ClosedStaysClosed | src/aep/execution_budgets.py:767-780 | a sticky refusal is never taken back in any run |
| BudgetGrants.ClosedRefuses | src/aep/execution_budgets.py:1233-1250 | a closed account refuses every later preflight that would charge it |
| BudgetGrants.UnreconciledMoneyCloses | src/aep/execution_budgets.py:626-660 | a dispatched charge without reliable cost closes every account that has a monetary limit |
| BudgetMoney.MoneyIsKeptExactly | src/aep/execution_budgets.py:993-1012 | a monetary limit is kept by all disciplined runs if and only if it rounds down to whole quanta |
| BudgetMoney.OneGrantOvershoots | src/aep/execution_budgets.py:437-472 | one grant that fits the rounded remainder but not the limit passes it unflagged |
| BudgetMoney.TwoGrantsOvershoot | src/aep/execution_budgets.py:437-472 | a first grant can make the second remainder round up past the limit |
| BudgetTask.TaskBudget.EvaluateScopes | src/aep/execution_budgets.py:816-847 | the loop over the scopes returns the first refusal the ledger defines |
| BudgetTask.TaskBudget.ReservationPlan | src/aep/execution_budgets.py:875-991 | the imperative plan with its repair loop computes the ledger's plan |
| BudgetTask.TaskBudget.Preflight | src/aep/execution_budgets.py:397-522 | the new ledger, the verdict and the open reservation are those of the ledger model |
| BudgetTask.TaskBudget.SettleOne | src/aep/execution_budgets.py:577-660 | the field updates in source order give the settled record of the ledger model, whose consumption and marks BudgetConsumption states on the charges |
| BudgetTask.TaskBudget.Record | src/aep/execution_budgets.py:524-683 | settles the open or the assumed reservation in all three records and closes it; over runs the records then consume exactly their charges (BudgetConsumption) |
| BudgetTask.TaskBudget.Release | src/aep/execution_budgets.py:685-711 | gives the open reservation back in all three records and closes it |
| BudgetTask.UnusedGrantIsUndone | src/aep/execution_budgets.py:685-711 | a preflight followed by its release puts every account back as it was |
| BudgetConsumption.RunsConsumeTheirCharges | src/aep/execution_budgets.py:606-625 | over every run, disciplined or not, each account has consumed exactly the invocations and the input and output tokens of the charges recorded by the budgets that charge it, and the money of their fold; other accounts consume nothing |
| BudgetConsumption.BilledIsOwed | src/aep/execution_budgets.py:1425-1477 | the consumed money is what the charges prove, reported or priced, within half a quantum for each charge, and exactly when every charge proves whole quanta |
| BudgetConsumption.SettlementConsumes | src/aep/execution_budgets.py:577-625 | one settlement adds to each of its three accounts what its charge reports and its proven money, rounded to a quantum, and nothing to any other account |
| BudgetConsumption.SettlementMarks | src/aep/execution_budgets.py:609-665 | a settlement flags an overrun exactly if consumption and holds are over a limit, closes an account exactly if money under a limit was spent by an unknown amount, and keeps its start |
| BudgetConsumption.SpentIsNotGrantedAgain | src/aep/execution_budgets.py:1233-1305 | once the charges recorded to a scope reach its invocation limit no preflight charging that scope is admitted, in any run from a fresh ledger |
| BudgetAdmission.AdmittedExactly | src/aep/execution_budgets.py:397-522 | a preflight is admitted if and only if every scope admits one more attempt under each of its limits and the money of every scope pays for the whole grant |
| BudgetAdmission.RefusalIsExplained | src/aep/execution_budgets.py:1233-1305 | every refusal names the first scope that refuses and a limit of it that one more attempt or the grant would pass, with what is consumed, held and required |
| BudgetAdmission.PlanIsLargest | src/aep/execution_budgets.py:875-991 | the grant has the most attempts that the caller asks for and the limits bear, giving up only attempts that could not be paid, and each has the largest share of the output left |
| BudgetAdmission.PricedOutputIsLargest | src/aep/execution_budgets.py:1434-1441 | without an output limit each attempt gets the most output tokens its share of the money buys, and none if it does not buy one |
| BudgetAdmission.PlanIsPriced | src/aep/execution_budgets.py:875-991 | the hold is the price of all attempts of the grant together, rounded to a quantum |
| BudgetAdmission.RetainedIsPerAttempt | src/aep/execution_budgets.py:546-605 | of a grant a settlement keeps the input and output of each attempt whose spend is unknown, and their part of the money up to half a quantum |
| BudgetAdmission.AssumedKeepsNothing | src/aep/execution_budgets.py:546-560 | nothing is kept of the reservation that a settlement without one assumes |
| BudgetResolution.ResolvedIsStrictest | src/aep/execution_budgets.py:124-209 | every effective limit is the least declaration that applies to its scope, attributed to a declarer of it |
| BudgetResolution.ResolvesExactly | src/aep/execution_budgets.py:124-209 | declarations resolve if and only if the override, the Task and the Agent stay within the Workflow and the Agent within the Task; a refusal names two scopes of which one widens the other |
| BudgetResolution.EnforcedExactly | src/aep/execution_budgets.py:1233-1305 | a whole number is over an enforced limit exactly if it is over the declared value of that field, as all but money is counted in whole numbers |
| BudgetResolution.TaskLimitsStayInTheTask | src/aep/execution_budgets.py:124-209 | a Task ceiling changes neither the Workflow nor the Agent limits |
| BudgetResolution.NarrowingOverrideIsAccepted | src/aep/execution_budgets.py:1214-1230 | resolution succeeds with an override exactly if it does without it and the override widens no Workflow limit |
| BudgetResolution.NarrowerIsTighter | src/aep/execution_budgets.py:1194-1212 | adding or lowering declarations only lowers effective limits, in the Workflow, the Task and the Agent |
| BudgetResolution.SharedKeysShareLimits | src/aep/execution_budgets.py:124-209 | budgets that share a record enforce the same limits on it, as the run results assume |
| BudgetResolution.PositiveDeclarationsResolve | src/aep/execution_budgets.py:1129-1164 | positive declarations give limits that a fresh record is within |
| CheckoutRuns.StepKeepsWellFormed | src/aep/execution_checkout.py:650-815 | every operation keeps the path and branch indexes exact inverses of the records and cache claims current |
| CheckoutRuns.StepAdvances | src/aep/execution_checkout.py:650-736 | no operation changes a binding or creation time or lowers a fence, and a new owner always comes with a larger fence |
| CheckoutRuns.RunsAdvance | src/aep/execution_checkout.py:650-736 | over every run of manager calls no binding or creation time changes, no fence goes down, and a new owner has a larger fence |
| CheckoutRuns.LostOwnershipNeverReturns | src/aep/execution_checkout.py:1572-1585 | an owner and fence pair lost to takeover never satisfies ownership again, whatever the clock |
| CheckoutLeases.ClaimIsDecided | src/aep/execution_checkout.py:650-677 | a claim with the stored binding is refused and changes nothing if and only if the record is provisioning under a live lease; a ready record is returned as it is; every other record goes to the claimer with the next fence |
| CheckoutLeases.FirstClaimIsDecided | src/aep/execution_checkout.py:664-677 | the first claim of an execution is refused if and only if another execution has its workspace or branch, and else stored with fence one |
| CheckoutLeases.CleanupIsDecided | src/aep/execution_checkout.py:698-722 | cleanup begins if and only if the checkout is ready or its cleanup failed, whatever the clock, and takes the next fence |
| CheckoutLeases.LeaseIsExclusive | src/aep/execution_checkout.py:650-736 | until it is over a lease cannot be taken, renewed or ended by others: the record stays as it is whatever they call in whatever order |
| CheckoutLeases.SqlLeaseIsExclusive | src/aep/execution_checkout.py:865-955 | nor over the SQL registry |
| CheckoutLeases.RenewedLeaseIsExclusive | src/aep/execution_checkout.py:679-696 | as long as its holder renews a lease before any clock has passed it, owner and fence stay |
| CheckoutLeases.CacheClaimIsDecided | src/aep/execution_checkout.py:738-768 | a cache is claimed if and only if the caller owns its execution and no live claim is on the cache, and then with the next fence of its repository |
| CheckoutLeases.CacheClaimIsExclusive | src/aep/execution_checkout.py:738-815 | until it is over a cache claim cannot be taken, renewed or released by others, whatever they call |
| CheckoutRuns.NoSharedCheckout | src/aep/execution_checkout.py:664-677 | in every reachable registry no two executions share a workspace or a repository branch |
| CheckoutRuns.StepMovesCacheFence | src/aep/execution_checkout.py:738-815 | a cache fence moves only when a claim is granted, by exactly one, and survives release |
| CheckoutRuns.ConstraintsAgree | src/aep/execution_checkout.py:1064-1092 | the UNIQUE constraints fail exactly when the dictionary indexes are taken |
| CheckoutRuns.CollidesExactly | src/aep/execution_checkout.py:829-840 | a row collides exactly if the table would break its UNIQUE constraints with it |
| CheckoutRuns.TablesRefineMemory | src/aep/execution_checkout.py:818-1092 | on related registries every operation gives related registries, and the same reply except when an absent claim is released |
| CheckoutRuns.RunsRefine | src/aep/execution_checkout.py:818-1092 | the registries stay related over every run of manager calls |
| CheckoutRuns.UpdatesAgreeExactly | src/aep/execution_checkout.py:724-736 | for every update the registries reply alike exactly if the caller does not own the record or the update takes no other workspace or branch, and stay related exactly if the caller does not own it or it keeps its workspace and branch |
| CheckoutRuns.RebindingUpdateDiverges | src/aep/execution_checkout.py:943-955 | an update that takes another execution's workspace or branch is refused by SQL but stored by the dictionaries |
| CheckoutRuns.RebindingExample | src/aep/execution_checkout.py:943-955 | a pair of registries reached by two claims, and an update on which they part |
| CheckoutRegistry.InMemoryCheckoutRegistry.Acquire | src/aep/execution_checkout.py:650-677 | a claim with the stored binding is refused as in progress, and changes nothing, if and only if the record is provisioning under a lease that is not over; otherwise the five dictionaries change exactly as the atomic claim step, and a valid registry stays valid |
| CheckoutRegistry.InMemoryCheckoutRegistry.RenewLease | src/aep/execution_checkout.py:679-696 | renewing is the atomic renew step on the dictionaries; a valid registry stays valid |
| CheckoutRegistry.InMemoryCheckoutRegistry.StartCleanup | src/aep/execution_checkout.py:698-722 | beginning cleanup is the atomic cleanup step on the dictionaries; a valid registry stays valid |
| CheckoutRegistry.InMemoryCheckoutRegistry.Store | src/aep/execution_checkout.py:724-736 | updating is the atomic update step on the dictionaries; a valid registry stays valid exactly if the update is refused or keeps its workspace and branch |
| CheckoutRegistry.InMemoryCheckoutRegistry.AcquireCache | src/aep/execution_checkout.py:738-768 | claiming a cache is the atomic cache step on the dictionaries; a valid registry stays valid |
| CheckoutRegistry.InMemoryCheckoutRegistry.RenewCacheLease | src/aep/execution_checkout.py:770-804 | renewing a cache claim is the atomic step on the dictionaries; a valid registry stays valid |
| CheckoutRegistry.InMemoryCheckoutRegistry.DropCache | src/aep/execution_checkout.py:806-815 | releasing a cache claim is the atomic step, silent when there is none; a valid registry stays valid |
| CheckoutRegistry.SqliteCheckoutRegistry.Put | src/aep/execution_checkout.py:1064-1092 | inserts or replaces the row of an execution; a valid table refuses exactly what would break its UNIQUE constraints, and stays valid |
| CheckoutRegistry.SqliteCheckoutRegistry.Acquire | src/aep/execution_checkout.py:865-896 | the same over the rows: refused as in progress if and only if the record is provisioning under a lease that is not over, else the atomic claim step with its errors; a valid table stays valid |
| CheckoutRegistry.SqliteCheckoutRegistry.Store | src/aep/execution_checkout.py:943-955 | updating is the atomic update step on the rows; a valid table stays valid whatever is stored |
| CheckoutRegistry.SqliteCheckoutRegistry.AcquireCache | src/aep/execution_checkout.py:957-1004 | claiming a cache is the atomic cache step on the rows; a valid table stays valid |
| CheckoutRegistry.SqliteCheckoutRegistry.DropCache | src/aep/execution_checkout.py:1038-1052 | releasing a cache claim is the atomic step on the rows, an error when there is none; a valid table stays valid |
| CheckoutRegistry.InMemoryCheckoutRegistry.NothingIsShared | src/aep/execution_checkout.py:664-677 | in a valid registry object no two executions share a workspace or a repository branch |
| CheckoutRegistry.SqliteCheckoutRegistry.NothingIsShared | src/aep/execution_checkout.py:829-840 | nor do they in the payloads of a valid table |
| CheckoutWorkers.StepKeepsInv | src/aep/execution_checkout.py:1146-1509 | every step of a worker or its heartbeat keeps fences owned by one worker each and the guard log ordered |
| CheckoutWorkers.GuardedMutationsAreFenced | src/aep/execution_checkout.py:1184-1204 | for every interleaving of workers and their heartbeats and all clocks, guarded mutations have non-decreasing fences per execution and cache, and equal fences are one worker's |
| CheckoutWorkers.SupersededCallFails | src/aep/execution_checkout.py:1365-1384 | every renewal and terminal update of a superseded worker is refused, its heartbeat's too |
| CheckoutWorkers.SupersededDoesNothingMore | src/aep/execution_checkout.py:1464-1509 | a worker superseded by takeover passes no further guard and records no terminal state, in any continuation |
| CheckoutWorkers.SupersededStartsAtMostOne | src/aep/execution_checkout.py:1184-1204 | it starts no mutation either, except the single one it may have guarded before |
| CheckoutWorkers.CacheLostStartsNothingNew | src/aep/execution_checkout.py:1464-1509 | a worker whose repository cache was claimed by another passes no further guard and starts at most the mutation it had guarded, in any continuation |
| CheckoutStates.RecordIsDecided | src/aep/execution_checkout.py:1146-1509 | one step of a worker changes the record of its own execution only: claiming it with the next fence, renewing it, or ending it well or not, which gives up owner and lease and changes nothing else |
| CheckoutStates.StatesAreRecorded | src/aep/execution_checkout.py:1206-1310 | over every run a record is READY, FAILED, CLEANED or CLEANUP_FAILED only because a call that held its fence provisioned it, failed to, cleaned it up, or failed to |
| CheckoutStates.CacheIsGivenUp | src/aep/execution_checkout.py:806-815 | giving up a cache removes exactly the claim the call made, if it still stands |
| CheckoutStarts.PendingStartsExactly | src/aep/execution_checkout.py:1184-1204 | while the started mutations are in order, all orders of the waiting starts keep them ordered if and only if no waiting worker is overtaken and no two contend |
| CheckoutStarts.PromptStartsAreFenced | src/aep/execution_checkout.py:1184-1204 | in every run from the start in which no mutation starts after its execution or cache was claimed again, started mutations are ordered |
| CheckoutStarts.GuardedWorkerMayStartLate | src/aep/execution_checkout.py:1184-1204 | a concrete run of two workers in which the started mutations are out of order |
| CheckoutSqlWorkers.RunsMatch | src/aep/execution_checkout.py:818-1092 | workers over the SQL registry do step by step what they do over the dictionaries |
| CheckoutSqlWorkers.SqlGuardedMutationsAreFenced | src/aep/execution_checkout.py:818-1092 | guarded mutations are fenced over the SQL registry as well |
| CheckoutSqlWorkers.SqlSupersededDoesNothingMore | src/aep/execution_checkout.py:818-1092 | and a superseded worker guards and records nothing more |
| CheckoutSqlWorkers.SqlSupersededStartsAtMostOne | src/aep/execution_checkout.py:1184-1204 | over the SQL registry, too, it starts at most the mutation it had guarded |
| CheckoutSqlWorkers.SqlCacheLostStartsNothingNew | src/aep/execution_checkout.py:1464-1509 | and so does a worker whose cache was claimed by another, which passes no further guard |
| CheckoutSqlWorkers.SqlPendingStartsExactly | src/aep/execution_checkout.py:1184-1204 | the exact condition for the waiting starts holds over the SQL registry |
| StatusText.StatusFieldsAreRead | src/aep/planning_evidence.py:72-97 | the fields of a document are, in order and with their line numbers, its Status lines that only blank lines, one title and other Status lines precede; it is refused if and only if such a line has no value |
| StatusText.StatusValueExactly | src/aep/planning_evidence.py:37-40 | a line has the value v exactly if it is the prefix, whitespace, v and whitespace, where v is not empty and neither starts nor ends with whitespace; it has at most one |
| StatusText.TitleExactly | src/aep/planning_evidence.py:49-58 | the text of a heading is what stands between blanks behind its `#`, without a closing run of `#` that follows a blank |
| StatusText.IsTitleExactly | src/aep/planning_evidence.py:49-58 | a line is a title exactly if it is a heading with a text |
| StatusText.SplitExactly | src/aep/planning_evidence.py:72-81 | a document has exactly one sequence of lines without CR and LF that, joined by LF, CR or CRLF and a LF behind a CR belonging to it, are the document |
| StatusText.PossibleExactly | src/aep/dogfood_runtime.py:1206-1238 | a fragment is kept exactly as long as some continuation of its line is metadata or refuses the document |
| Utf8.LengthIsEncoded | src/aep/dogfood_runtime.py:1230-1237 | the bytes counted for a text are the octets of its UTF-8 encoding |
| Utf8.OctetsAreRead | src/aep/dogfood_runtime.py:1230-1237 | each character is read back from its octets, whatever follows them, and its width is their number |
| StatusLines.ImpossibleLineEnds | src/aep/dogfood_runtime.py:1206-1237 | once a fragment cannot be metadata, no continuation of its line adds a field or raises |
| StatusScanner.Scanner.ConsumeBuffer | src/aep/dogfood_runtime.py:1186-1204 | the finished line advances the scan by the line rule or raises |
| StatusScanner.Scanner.Retain | src/aep/dogfood_runtime.py:1206-1237 | a fragment is dropped with the scan, refused over the limit, or kept, and the kept buffer is within the limit |
| StatusScanner.Scanner.Feed | src/aep/dogfood_runtime.py:1239-1267 | whatever text follows, feeding a chunk keeps what the scan must end with, and the buffer within the limit |
| StatusScanner.Scanner.Finish | src/aep/dogfood_runtime.py:1296-1304 | the last line without a break is judged like any other |
| StatusScanner.Scan | src/aep/dogfood_runtime.py:1173-1304 | for every text and every cut into chunks the scan ends as the whole document does, or raises the limit exactly if it gets to a line of which, at its end or where a chunk ends, it has more than the limit and that may be metadata so far |
| StatusScanner.CutsMatter | src/aep/dogfood_runtime.py:1206-1238 | for more blanks than the limit with text behind them, a chunk that ends after the blanks raises the limit and an uncut text has no fields |
| StatusScanner.OverfullHasLongLine | src/aep/dogfood_runtime.py:1206-1237 | the limit is only raised in a document with a line over it |
| StatusScanner.WholeLinesExceed | src/aep/dogfood_runtime.py:1206-1237 | a line that may be metadata as a whole and is over the limit is raised however the text is cut, and nothing else is if it is not cut |
| ReplayReferences.NoReplacedRefIsLeft | src/aep/dogfood_runtime.py:186-200 | after rewriting, no mapping at any depth spells a replaced reference |
| ReplayReferences.NothingToReplace | src/aep/dogfood_runtime.py:186-200 | a document without replaced references is left as it is |
| ReplayReferences.ReplacingTwiceIsReplacingOnce | src/aep/dogfood_runtime.py:186-200 | rewriting again changes nothing |
| ReplayReferences.RewritesExactly | src/aep/dogfood_runtime.py:186-200 | rewriting gives the one document with the same lists in the same order, the same keys and the same texts, except the three that spell a replaced reference |
| ReplayReferences.RefsAreSubstituted | src/aep/resource_loader.py:350-359 | the loader finds in the rewritten document exactly the substituted references |
| ReplayCollection.Resolve | src/aep/dogfood_runtime.py:142-150 | one popped resource gets all its references resolved, adding only what every closure needs, or no closure exists |
| ReplayCollection.Reconstruct | src/aep/dogfood_runtime.py:135-150 | the worklist ends for every override, with everything resolved or a proof that it cannot be |
| ReplayCollection.AddOverrides | src/aep/dogfood_runtime.py:128-150 | the collection becomes the least closure of the history and the overrides, closed if the history was |
| ReplayCollection.Replace | src/aep/dogfood_runtime.py:154-168 | the replacements are exactly the inherited references overridden with another version |
| ReplayCollection.ReplacementsSettle | src/aep/dogfood_runtime.py:154-168 | no replacement is itself replaced, and all of them are overrides |
| ReplayCollection.LastOverrideStands | src/aep/dogfood_runtime.py:154-159 | of all overrides of a kind and name the last one stands, and nothing else is overridden |
| ReplayCollection.RewritingIsConsistent | src/aep/dogfood_runtime.py:170-177 | rewriting the reference list and rewriting the document agree |
| ReplayCollection.RewritingKeepsClosed | src/aep/dogfood_runtime.py:170-179 | a closed collection stays closed when its references are rewritten |
| ReplayCollection.Replay | src/aep/dogfood_runtime.py:123-183 | the resources are the least closure with every resource rewritten, closed if the history was, free of replaced references, stable under rewriting and with every effective reference; each refusal is explained |
| ReplayOutcome.Reconstructed | src/aep/dogfood_runtime.py:169-183 | the tuple lists each resource once by kind, name and version; its workspace entry is the one before rewriting, which agrees with the listed one exactly if it mentions no replaced version |
| ReplayOutcome.NamingIsLoaded | src/aep/resource_loader.py:350-359 | the resources of that replay have exactly the references of their documents, so the loader may have read them |
| ReplayOutcome.WorkspaceMayNameReplacedVersion | src/aep/dogfood_runtime.py:123-183 | a replay of loaded resources that succeeds, lists the Workspace with the chosen default Policy, and hands out a workspace entry that names the replaced one |
| OverrideText.OverridesRoundTrip | src/aep/execution_replay.py:287-295 | printing and parsing overrides are inverse in both directions |
| OverrideText.VersionExactly | src/aep/execution_replay.py:27-30 | a version is accepted exactly if it is an optional `v`, three numbers without superfluous zeros, and a pre-release and a build tag that may be missing |
| Resources.SortSorts | src/aep/execution_replay.py:273 | sorting permutes and sorts by kind, name and version |
| Resources.SortedIsUnique | src/aep/execution_replay.py:273 | there is one sorted arrangement of the same references |
| Resources.OrderExactly | src/aep/execution_replay.py:273 | references are ordered by their kinds, then names, then versions, texts by their first difference |
| ReplayOverrides.ApplyOverrides | src/aep/execution_replay.py:255-273 | accepts exactly one override per kind and name of the history, and then has the overrides and the references not overridden, sorted, without duplicates |
| ReplayOverrides.OverrideOrderIsIrrelevant | src/aep/execution_replay.py:255-273 | the result does not depend on the order of the overrides |
| ReplayOverrides.AcceptanceIgnoresOrder | src/aep/execution_replay.py:255-273 | nor does whether they are accepted |
| ReplayOverrides.HistoricalOverrides | src/aep/evaluation_suites.py:425-455 | emits, by kind and name, exactly one override for each selected kind and name whose history differs, and fails exactly if one is absent from the history |
| ReplayOverrides.SuiteSelectsItsVersions | src/aep/evaluation_suites.py:425-455 | a suite's overrides survive printing and parsing, are accepted, and leave each selected kind and name with exactly the selected version and everything else unchanged |
| ContextElements.ExtendingCostsNothingBack | src/aep/context_builder.py:1456-1487 | an element that only gained reasons, paths and references does not get cheaper, so clamping the difference hides nothing |
| ContextElements.CountTokens | src/aep/context_builder.py:1590-1594 | a quarter of the canonical JSON bytes, rounded up, at least one |
| CanonicalJson.SizeIsOfText | src/aep/context_builder.py:1686-1693 | the size of a slice is the number of UTF-8 bytes of the JSON lists of its reasons, paths and references and of everything else in it |
| CanonicalJson.QuotedIsRead | src/aep/context_builder.py:1686-1693 | every text is read back from its JSON string, so the strings that are sized are the right ones |
| CanonicalJson.TextBytesExactly | src/aep/context_builder.py:1686-1693 | the bytes counted for a text are those of its JSON string in UTF-8 |
| CanonicalJson.TokensExactly | src/aep/context_builder.py:1590-1594 | the token count is the least positive number of which four times reaches the size |
| ContextSelection.Deduplicate | src/aep/context_builder.py:1387-1422 | each slice is kept once, merged with all its duplicates, at the place of its first one, and all other candidates unchanged, all in order |
| ContextSelection.GroupCollects | src/aep/context_builder.py:1456-1487 | a merged slice has exactly the reasons, paths and references of its duplicates, and everything else of the first one |
| ContextSelection.Select | src/aep/context_builder.py:792-855 | every optional candidate has one fate, decided at its turn: it is taken, or merged into its mandatory duplicate, if and only if the token count and what that adds are within the budget, and a discard reports what it would have added; the token count is the sum of the elements and within the budget |
| ContextPackage.TokenBreakdown | src/aep/context_builder.py:1505-1513 | each category that occurs has its own count and tokens |
| ContextPackage.CategoriesAddUp | src/aep/context_builder.py:1505-1513 | the category tokens add up to the token count |
| ContextPackage.EntryExactly | src/aep/context_builder.py:1505-1513 | the entry of a category counts the elements at its positions and adds up their tokens |
| ContextPackage.SelectionIsDistinct | src/aep/context_builder.py:792-855 | repository identities in the package are pairwise distinct |
| ContextPackage.Build | src/aep/context_builder.py:789-877 | deduplication, selection and accounting together: distinct identities, no mandatory element lost, each optional candidate or duplicate kept exactly if it fits at its turn, exact count and breakdown within the budget, the selected names and reasons in the order of taking, PRUNED exactly if something was discarded |
| Predecessors.OrderedIsClosedAndAcyclic | src/aep/evaluate_acceptance.py:224-262 | an order without duplicates, dependencies first, holds everything its tasks reach and no cycle |
| Predecessors.PassesExactly | src/aep/evaluate_acceptance.py:232-252 | a task passes exactly if it is a stored TaskExecution of this workflow and trace that succeeded, its Task is named and loaded and its dependencies are listed; each refusal names what is not so |
| Predecessors.Walk.Visit | src/aep/evaluate_acceptance.py:227-262 | the recursive visit ends, adds exactly what its task reaches after its dependencies, or names a reachable cycle or bad record |
| Predecessors.WalkFrom | src/aep/evaluate_acceptance.py:224-262 | the walk succeeds if and only if everything reachable is valid and no cycle is, and returns exactly the reachable tasks, dependencies first and in the order of the records |
| Predecessors.FindPredecessors | src/aep/evaluate_acceptance.py:212-272 | there is a chain if and only if the evidence is one task, everything it reaches is valid and acyclic, and the walk's order spells the fixed Task names; each refusal is explained |
| Predecessors.ListedOrderDecides | src/aep/evaluate_acceptance.py:254-272 | evidence that has an order spelling the chain and is refused, as the walk takes dependencies in the order of the record |
| AcceptanceEvidence.OneEachIsPermutation | src/aep/evaluate_acceptance.py:497-525 | the counting checks mean that results and declared Evaluations are permutations |
| AcceptanceEvidence.DistinctTypesMakeDistinctRefs | src/aep/evaluate_acceptance.py:375-395 | the type check makes declared Evaluations pairwise different |
| Acceptance.CheckCommon | src/aep/evaluate_acceptance.py:756-798 | no issue if and only if the evidence is correlated with its producer, workflow, trace and revision; else exactly the issues that name what differs |
| Acceptance.CheckTarget | src/aep/evaluate_acceptance.py:610-699 | no issue if and only if the target is correlated producer evidence of the right kind; else exactly the issues of what is wrong with it |
| Acceptance.CheckResults | src/aep/evaluate_acceptance.py:424-495 | no issue if and only if every attached result is stored, correlated, targeted and passed; else exactly the issues of the results; an error exactly if one is malformed |
| Acceptance.CheckEvidence | src/aep/evaluate_acceptance.py:288-525 | no issue if and only if the producer has exactly one stored artifact of the contracted type and its results are a permutation of its declared Evaluations, all accepted; else exactly the issues of its evidence, and an error exactly if it cannot be judged |
| Acceptance.ChecksAreTruthful | src/aep/evaluate_acceptance.py:527-540 | each published check is true if and only if what it says holds of the evidence of all predecessors |
| AcceptanceFaults.CompleteExactly | src/aep/evaluate_acceptance.py:528-528 | some issue says that evidence is missing exactly if an attached artifact, its content or result is not stored, no artifact is attached, or a declared Evaluation has no result |
| AcceptanceFaults.OneExecutionExactly | src/aep/evaluate_acceptance.py:529-529 | some issue names another execution exactly if the producer, an attached artifact or result, or an invocation it judged is of another producer, trace or workflow |
| AcceptanceFaults.OneRevisionExactly | src/aep/evaluate_acceptance.py:530-530 | sameRevision is false exactly if the producer, an attached artifact or result has another revision than the workflow, or a judged invocation records another |
| AcceptanceFaults.TraceableExactly | src/aep/evaluate_acceptance.py:531-534 | provenanceConsistent is false exactly if a provenance is missing, the producer does not bind its Task, or the attached artifacts are not its stored one |
| AcceptanceFaults.AcceptedExactly | src/aep/evaluate_acceptance.py:288-525 | evidence is accepted if and only if it can be judged and no issue is due |
| Acceptance.Evaluate | src/aep/evaluate_acceptance.py:274-540 | the outcome is PASS if and only if the evidence of every predecessor is accepted; whatever it is, the issues are exactly those of the evidence and each published check is true exactly if what it says is so; an error means malformed evidence |
| Acceptance.Execute | src/aep/evaluate_acceptance.py:68-80 | there is an outcome if and only if the tasks found behind the acceptance task are the contracted chain, valid, acyclic and in the order of the contracts, and their evidence can be judged, and it is PASS if and only if the evidence of each is accepted; a refused chain is explained |
| ToolRuntime.InvokeTool | src/aep/tool_runtime.py:320-440 | the execution's own result passes through unless something around it fails; every other result has a message and the failure class of its cause |
| DockerEvidence.DockerCliExecution.Wait | src/aep/docker_validation_tool.py:799-888 | the evidence records exactly what happened, probe by probe and command by command, up to the first failure or timeout |
| DockerEvidence.EvidencePassesTheChecks | src/aep/docker_validation_tool.py:1092-1117 | evidence of the executor always passes the tool's own checks |
| DockerEvidence.ResultOf | src/aep/docker_validation_tool.py:981-1080 | for every run that could have produced the outcome the result reports it truly, with its readiness, failure class and duration, and has a message just when it does not succeed; whatever an executor returns, success is reported exactly if it proves every prerequisite and every command |
| DockerEvidence.RecordedIsKept | src/aep/docker_validation_tool.py:845-873 | each stored record has the command, both streams, the exit code and the duration of its process and the log of both streams; the total duration is that of the processes |
| DockerEvidence.ProbedIsKept | src/aep/docker_validation_tool.py:815-842 | each kept probe has the command and pattern of its prerequisite, and as its output what both streams say between the whitespace around it, cut off after 1024 characters |
| BuildTestEvaluation.RequestedCommands | src/aep/build_test_evaluation.py:219-239 | the commands are read exactly if all are well formed and there is one |
| BuildTestEvaluation.CommandRecords | src/aep/build_test_evaluation.py:241-296 | a sequence error exactly if the records are not a first part of the commands; otherwise the records up to the first incomplete one |
| BuildTestEvaluation.Judge | src/aep/build_test_evaluation.py:332-420 | when a command's evaluation is a configuration error, and its status otherwise |
| BuildTestEvaluation.ReportedEvidenceIsRead | src/aep/build_test_evaluation.py:241-321 | the evaluator reads the tool's evidence without any error, cleaned up or not |
| BuildTestEvaluation.EvaluateCommand | src/aep/build_test_evaluation.py:83-120 | for every configuration and every course of events each configured command is given its true status, or after a failed cleanup NOT_RUN for a timeout; without output every command is unusable |
| BuildTestEvaluation.StatusesFollowOnePattern | src/aep/docker_validation_tool.py:799-873 | true statuses are passed commands, at most one failed or timed out, then commands not run |
| BuildTestEvaluation.SuccessIsAllPassed | src/aep/docker_validation_tool.py:1045-1052 | a run is reported as SUCCEEDED if and only if every command passed |
| BuildTestEvaluation.TimeoutIsReported | src/aep/docker_validation_tool.py:1045-1052 | a run is reported as TIMED_OUT if and only if a command timed out |
| BuildTestEvaluation.Validate | src/aep/docker_validation_tool.py:232-262 | whatever the processes do and whatever starting, waiting, stopping and cleaning up raise, the result is restored from the store exactly as it was |
| BuildTestEvaluation.ValidateAndEvaluate | src/aep/build_test_evaluation.py:83-120 | from the processes to the evaluator: the statuses returned for all commands are the expected ones, and when nothing around the container fails the true ones, in the one pattern |
| BuildTestEvaluation.TrueExactly | src/aep/tool_runtime.py:320-440 | all statuses are true if and only if the validation starts and waiting for it does not raise, a complete output is accepted, and no timeout precedes a failing stop or cleanup |
| BuildTestEvaluation.CleanupHidesTimeout | src/aep/tool_runtime.py:417-439 | a configuration, a course of events and a failed cleanup for which a timeout is reported as NOT_RUN |
| BuildTestEvaluation.LostRuns | src/aep/tool_runtime.py:373-413 | a passed build whose output is refused or whose end cannot be waited for, and a timed out one that cannot be stopped, all reported as unusable |
| RuntimeStore.InMemoryRuntimeObjectStore.Create | src/aep/runtime_store.py:239-257 | the first object of a key is returned to all; a foreign identifier is refused |
| RuntimeStore.LeaseIsExclusive | src/aep/runtime_store.py:319-341 | until it is over a lease cannot be taken, renewed or released by others, whatever they call |
| RuntimeStore.LeaseIsDecided | src/aep/runtime_store.py:319-341 | a lease is granted exactly if nobody else has one that is not over, renewed exactly by an owner whose lease is not over, and released exactly by its owner |
| RuntimeStore.UpdateIsDecided | src/aep/runtime_store.py:488-538 | an update succeeds exactly on the expected status, unless that is terminal and another status is asked for |
| RuntimeStore.TerminalIsFinal | src/aep/runtime_store.py:519-531 | whatever is updated, with or without a lease, an object that is terminal stays exactly as it is |
| RuntimeStore.UnheldChangesNothing | src/aep/runtime_store.py:343-355 | no update with a lease changes anything unless its caller holds the lease |
| RuntimeStore.InMemoryRuntimeObjectStore.Claim | src/aep/runtime_store.py:305-317 | a claim succeeds once per key, everyone is told the winner, and no other claim changes: the claim of the invocation protocol |
| RuntimeStore.InMemoryRuntimeObjectStore.Update | src/aep/runtime_store.py:488-538 | compare-and-swap on the status of one object; terminal and other objects never change |
| RuntimeStore.InMemoryRuntimeObjectStore.UpdateWithLease | src/aep/runtime_store.py:343-355 | the same, refused unless the lease is held: the checkpoint of the suite protocol |
| RuntimeStore.InMemoryRuntimeObjectStore.AcquireLease | src/aep/runtime_store.py:319-325 | a lease is taken unless another owner holds it unexpired |
| RuntimeStore.InMemoryRuntimeObjectStore.RenewLease | src/aep/runtime_store.py:327-333 | only the holder of an unexpired lease renews it |
| RuntimeStore.InMemoryRuntimeObjectStore.ReleaseLease | src/aep/runtime_store.py:335-341 | only the owner releases it |
| AgentInvocation.StepKeepsInv | src/aep/agent_invocation.py:146-447 | every interleaved step keeps one claim winner, one dispatch and at most one settlement per call |
| AgentInvocation.InvokedAtMostOnce | src/aep/agent_invocation.py:146-447 | for any concurrent or repeated calls the adapter is reached at most once, the invocation leaves RUNNING at most once, and a call that returns after its preflight has settled exactly once; unsettled raises are exactly the listed ones |
| AgentEndings.EndingsAreTruthful | src/aep/agent_invocation.py:276-447 | over every run the adapter answers at most once, the AgentInvocation is SUCCEEDED by a call if and only if the adapter gave that call a valid output and FAILED by it otherwise, and a child is SUCCEEDED by any output and FAILED by a provider failure or a raising validator |
| AgentIdentity.InvokedForItsInputs | src/aep/agent_invocation.py:146-240 | over every run a call reaches the adapter only for the invocation with its own inputs and its own new child, and a call that returns had the inputs of the stored invocation unless it lost the claim of its pair |
| AgentIdentity.AgentReadIsDecided | src/aep/agent_invocation.py:146-150 | at its first read a call raises exactly if the stored invocation has other inputs, and returns exactly if it is finished |
| AgentIdentity.ModelReadIsDecided | src/aep/agent_invocation.py:151-161 | a child is accepted only while it runs, of this invocation, found before |
| AgentIdentity.AgentCreationIsDecided | src/aep/agent_invocation.py:209-238 | with its claim a call creates the invocation unless there is one or it found a child, goes on only with what it created or would have created, and returns a finished one only for the same inputs |
| AgentIdentity.ModelCreationIsDecided | src/aep/agent_invocation.py:241-275 | then it creates the child unless there is one, and goes on only with its own |
| AgentIdentity.LoserMayBeGivenAnother | src/aep/agent_invocation.py:193-208 | a run in which a call that lost the claim returns although the stored invocation has other inputs |
| InvocationCharges.ChargesAreDecided | src/aep/agent_invocation.py:163-335 | the ledger is charged exactly as a call takes down what its adapter answered, and given a reservation back only by a call that does not reach the adapter |
| InvocationCharges.ChargedAtMostOnce | src/aep/agent_invocation.py:276-345 | over every run at most one answer is charged, only to the budget of the call that won the claim |
| InvocationLedger.StepKeepsExactly | src/aep/agent_invocation.py:163-240 | a step of any call together with its ledger keeps every account if and only if it does not ask a budget with a reservation still open |
| InvocationLedger.RunsKeep | src/aep/agent_invocation.py:146-518 | over every run in which no call asks an open budget, shared or its own, the accounts are kept and every open reservation is owed by exactly one call |
| InvocationLedger.InvocationsKeepTheLedger | src/aep/agent_invocation.py:146-518 | when each call has its own budget, after every interleaving each account holds what its calls owe plus what was retained; a returned call owes nothing, a raised one only at the listed raises |
| InvocationLedger.RetryOnOpenBudgetLeaks | src/aep/agent_invocation.py:163-172 | a retry on the budget of a call that still owes breaks the accounts as soon as it is admitted |
| InvocationLedger.RetryLeaks | src/aep/agent_invocation.py:163-172 | a run from fresh calls and a fresh ledger in which the retry of a crashed call does so |
| ToolRuntime.RestoringIsExact | src/aep/docker_validation_tool.py:352-391 | restoring a stored result is exact if and only if it has a failure message just when it failed; it is stored the same way again |
| ToolRuntime.RestoringAddsAMessage | src/aep/docker_validation_tool.py:352-391 | a failed result without a message is restored with one |
| DockerInvocation.StepKeepsInv | src/aep/docker_validation_tool.py:196-313 | every interleaved step keeps one owner, one transition and the stored evidence |
| DockerInvocation.OneRunOneTransitionOneResult | src/aep/docker_validation_tool.py:196-313 | any number of callers run the adapter at most once, the record turns terminal at most once, and every caller that returns reports the stored result |
| DockerInvocation.CallersAgree | src/aep/docker_validation_tool.py:196-313 | when every result has a message just when it failed, all callers that return, the owner included, return the same result |
| DockerInvocation.RequestsAreNotMixed | src/aep/docker_validation_tool.py:196-313 | over every run callers that return asked for the same, as did the one that ran the adapter |
| SuiteRuns.StepKeepsInv | src/aep/evaluation_suites.py:102-240 | every step of every contending runner keeps the lease owner's results equal to the persisted ones and only adds to them |
| SuiteRuns.CheckpointsAreSound | src/aep/evaluation_suites.py:102-240 | across crashes, takeovers and any clocks the persisted results are a duplicate-free first part of the case order, only grow, and are final only when complete, SUCCEEDED exactly if all passed; SuiteVerdicts ties them to the evaluations |
| SuiteVerdicts.VerdictsArePersisted | src/aep/evaluation_suites.py:210-240 | over every run each persisted result is the verdict of an evaluation of its case in that run, so a finished run is SUCCEEDED if and only if every persisted case was evaluated to PASS |
| SuiteVerdicts.OwnVerdictIsPersisted | src/aep/evaluation_suites.py:210-232 | a checkpoint persists the latest verdict of its own caller, or nothing |
| Der.LengthRoundTrip | src/aep/github_app_provider.py:909-918 | every encoded length below 2^32 is read back wherever it stands |
| Der.EncodedLengthIsShortest | src/aep/github_app_provider.py:909-918 | accepted length octets are never shorter than DER has them |
| Der.DerSequence | src/aep/github_app_provider.py:921-937 | the loop ends on all inputs and computes the recursive decoding |
| Der.SequenceRoundTrip | src/aep/github_app_provider.py:921-937 | decoding inverts the DER encoding of every list of items |
| DerReading.SequenceExactly | src/aep/github_app_provider.py:909-937 | decoding gives some items exactly if the octets spell one SEQUENCE of them and nothing else, every length in any definite form of up to four octets |
| Der.LengthIsDerExactly | src/aep/github_app_provider.py:909-918 | accepted length octets are those of DER exactly if they are short, or long with a nonzero first digit and a value of at least 128 |
| Der.ReencodingIsExact | src/aep/github_app_provider.py:921-937 | among accepted encodings of the same items the DER encoding is the shortest, and re-encoding gives the input back if and only if all its length fields are minimal |
| Der.AcceptsLongForm | src/aep/github_app_provider.py:909-937 | an accepted input whose length octets DER forbids |
| Signer.SizeBounds | src/aep/github_app_provider.py:178-180 | the octet length computed from the bit length is the least that holds the modulus |
| Signer.EncodedFits | src/aep/github_app_provider.py:178-185 | the encoded message is exactly as long as the modulus, padded by at least eight octets and numerically below it |
| Signer.EncodedOctets | src/aep/github_app_provider.py:181-185 | by position: 0x00, 0x01, a run of 0xff, 0x00, the DigestInfo prefix and the digest, as section 9.2 of RFC 8017 has them |
| Signer.DigestInfoIsDer | src/aep/github_app_provider.py:162-162 | the prefix and a digest are the DER encoding of a DigestInfo with the identifier of SHA-256 |
| Signer.RsaValuesExactly | src/aep/github_app_provider.py:164-173 | key numbers are read from exactly the octets that spell a PKCS#1 key or one wrapped in three items |
| Signer.KeysAreRead | src/aep/github_app_provider.py:164-173 | a DER encoded PKCS#1 key is read as it is, and as the same out of a PKCS#8 wrapping |
| Signer.SignatureVerifies | src/aep/github_app_provider.py:184-187 | raised to an exponent that inverts the private one a signature is the encoded message again, octet by octet |
| Signer.Sign | src/aep/github_app_provider.py:164-187 | a signature is the encoded message raised to the private exponent, as long as the modulus; each refusal is explained |

## Left out

- Floating point: costs and limits are exact numbers here, so the 28-digit precision of `Decimal` and the conversions to and from `float` are not modelled.
- Charges that `record` refuses before it changes anything (a negative or non-finite cost, an unknown status) cannot be written down in the model.
- Evidence kept beside the ledger: cost status counts, the last decision, provider names and timestamps of records.
- CheckoutWorkers.GuardedMutationsAreFenced: is about guarded mutations, not started ones, because the code only guards starts; the started ones have their own exact result.
- Cleanup attempts and failure evidence of checkout records, and the files, Git commands and credentials of a checkout.
- Real time: a clock is an arbitrary number, and a heartbeat may renew at any time once both claims are held. When it fails, the end of the mutation may fail the worker but need not, so the results hold for more runs than there are.
- UTF-8 decoding and hashing of the scanned blob; an empty decoded chunk in front of a line feed, which the decoder does not produce.
- Collecting historical references from runtime records, and context identity checks of a replay.
- ContextPackage.Build: leaves out the digest, the stored copy and the schema validation of the package; elements are sized by their JSON, not stored as it.
- JSON Schema validation, regular-expression engines, SHA-256, UUIDs and base64: predicates, or assumed distinct tokens.
- Issue messages, the sorting of issues and how often one is repeated in an acceptance report.
- Docker itself, log storage, the first line of a readiness log and process output decoding; of stopping a container only what it raises. Failure messages are fixed texts here, without the numbers and names the code puts in.
- Persistence of the runtime store, its other operations, and protected fields of `update_status`.
- The aggregate metrics of a suite run and the evidence of single cases.
- Reading PEM text; that the two exponents of a key invert each other is a condition of `Signer.SignatureVerifies`, not checked by the code; the token provider and all HTTP traffic.
- Issue analysis, planning, approval, policy, publication and deployment: mostly validation or orchestration of external tools.
