# Marketplace billing, entitlements, tokens and four small algorithms: models and proofs

The project models the parts of the repository where a mistake costs money or access, and
proves what each promises over whole runs.

**Usage billing** (`Calendar`, `Checkpoints`, `Billing`, `BillingInvariant`, `BillingSteps`,
`BillingTheorems`, `BillingMonths`, `BillingOutcomes`, `BillingResends`, `BillingJanuary`,
`UsageReporting`, `UsageCounts`). A
month-to-date ledger is turned into windowed charges and sent to a service that does not dedupe
and may lose its answer. The state is the table of checkpoints and, beside it, everything Google
has ever billed. A run is any list of hourly reports, final windows, resends of a cancelled
entitlement's refused windows and settlements by hand, each with any reply of Google's and cut
short anywhere (`Mishap`). The class `UsageReporter` does each step in place on its table and is
proved against the functions of `Billing`; what those come to is said in `BillingOutcomes` and
`UsageCounts` of the ledger, the rows and Google's log alone. Amounts are whole millionths of a unit (the column
keeps six decimals), times are seconds since 2000, and months are those of the Gregorian calendar.

**Reports that overlap** (`BillingOverlap`, `BillingWritable`, `BillingOverlapTheorems`,
`BillingAlone`, `BillingClash`, `BillingTwice`). The same runs taken in pieces: a run looks its
windows up one by one, writes their rows, sends them and marks them, with any steps of other runs
in between, so that what it read may be out of date. Billing once and never over the ledger is
proved for every interleaving in which no window is read up that another run still has to write,
and `BillingClash` proves that this is exactly what keeps each window billed once.

**Entitlements** (`Entitlements`, `Repair`, `RepairTails`, `RepairOutcome`,
`EntitlementRepairing`, `ProcessedEvents`, `Approvals`, `Onboarding`). The mirror of Google's
entitlements; its hourly repair, with a measure for each organization that falls until its rows
are settled, the tails it charges and where it ends; the dedupe ledger of events; the order of the approval calls; concurrent onboarding.

**Tokens and rate limiting** (`Tokens`, `Authentication`, `RateLimiting`). `Tokens.Decide` is the
decision on the token table alone; the class `Authenticator` is the check with its cache, proved
to decide the same. The limiter's pruned, expiring list is proved to decide as all the requests of
a bucket would have it, and so to keep its bound.

**Four algorithms.** `EnvReferences`: the `${NAME:-default}` scanner and its round trip with a
printer. `BudgetFit`: the binary search that trims a JSON result to a budget. `SpanTree`: the
checks that a trace's spans form a tree. `MergePricing`: the three-source catalogue merge.

What turns out not to hold, each with its exact condition and an input:

- The admin page says a window settled as not billed is sent again by the next hourly run
  (`futureagi/accounts/admin.py:683-686` and `:712`). A closing window settled so after the new
  month's first window was accepted is not, and no hourly or final report sends it ever again:
  `JanuarySettledByHand` is an honest run from an empty table that ends there. `SentAgainExactly`
  is the condition, `LeftBehindForGood` its permanence; `JanuaryLeftBehind` is the same for a
  window that Google refused.
- Nothing keeps the hourly report of an entitlement and its final report apart, which can run at
  the same time (`futureagi/accounts/services/gcp_service_control.py:98-103`). Both may read one
  window before either writes its row, and each sends an operation of its own, which Google bills:
  `OverlapBillsTwice`. `BilledOnceExactly` is the condition: a run goes on billing each window
  once, however it ends, if and only if its next read brings no window that another run still has
  to write.
- A row's newest answer can be overwritten by an older one, for the check and the store of
  `sync_entitlement` are two queries with no lock (`futureagi/accounts/gcp_marketplace_events.py:202-236`).
  `RegressesExactly`: a store leaves the newest answer if and only if no later one was brought to
  the row since its check; `OverlappingStoresRegress` is a case.
- The hourly repair does not bring every organization to its newest served entitlement: a row live
  here and purged at Google stays live, and while it is the newer purchase the plan is left to
  whatever passed before. From settled rows every starting subscription is repaired if and only if
  there is no such row (`RepairsEveryStartExactly`); from any rows `ConvergesExactly` gives the
  condition on the rows at the start, and `PurgedRowStrands` a case.
- An account's recorded approval is never taken back, not even when the account is deleted
  (`futureagi/accounts/gcp_marketplace_events.py:254-269`). An entitlement is approved under an
  approval Google still holds exactly unless Google has put the account back to pending since:
  `HeldUnlessReopened`, with `RejoinedUnderOldApproval` as the case.
- The pricing merge does not promise that merging twice is the same as merging once, and it is
  not where upstream itself carries the models.dev mark on an entry a flag is carried into.
  `MergeIsIdempotent` is the equivalence, `SecondMergeDrops` a case.

## Model

| member | source | states |
|---|---|---|
| Checkpoints.LastWindowEndIsGreatest | futureagi/accounts/gcp_marketplace_usage.py:117-128 | where reporting of a metric stopped is the greatest end among its reported windows, and is missing only if there is none |
| Checkpoints.MarkAllAt | futureagi/accounts/gcp_marketplace_usage.py:540-554 | marking changes the status of exactly the listed windows' rows |
| Calendar.YearStart | futureagi/accounts/gcp_marketplace_usage.py:47-72 | every year starts 365 days for each year before it later, and a day for each leap day the Gregorian rule counts |
| Calendar.MonthWithinYear | futureagi/accounts/gcp_marketplace_usage.py:47-72 | every month starts after the days of the months before it, from March on a leap day later |
| BillingInvariant.RequestsPermitted | futureagi/accounts/gcp_marketplace_usage.py:304-338 | every window a run asks for starts where reporting stopped or at the first instant of a later month, and ends in its own month or at the first instant of one |
| BillingInvariant.PermittedAgainst | futureagi/accounts/gcp_marketplace_usage.py:304-338 | all other rows of a requested window's month are reported and end before it starts |
| BillingInvariant.PutKeepsOrder | futureagi/accounts/gcp_marketplace_usage.py:366-408 | writing a requested window keeps the table's order and moves no last window end |
| BillingInvariant.MonthIsReported | futureagi/accounts/gcp_marketplace_usage.py:102-114 | besides the window being written, a month holds exactly what the already-reported sum counts |
| BillingInvariant.AddWindowKeeps | futureagi/accounts/gcp_marketplace_usage.py:341-408 | one window asked for keeps the whole invariant, and what is queued was never billed |
| BillingInvariant.AddAllKeeps | futureagi/accounts/gcp_marketplace_usage.py:286-338 | a run's collection, stopped anywhere, keeps the whole invariant |
| BillingInvariant.AddAllCovers | futureagi/accounts/gcp_marketplace_usage.py:180-202 | collection never lifts the sum of a month's rows above the highest billable total read |
| BillingInvariant.SetStatusKeeps | futureagi/accounts/gcp_marketplace_usage.py:540-554 | a truthful change of an open row's status keeps the invariant |
| BillingSteps.ChargesKeep | futureagi/accounts/services/gcp_service_control.py:124-144 | whatever subset of the queued operations Google bills, no window is billed twice and each at its row's quantity |
| BillingSteps.MarksKeep | futureagi/accounts/gcp_marketplace_usage.py:467-537 | for every truthful reply, also one dying between the marks, the statuses written agree with what Google billed |
| BillingSteps.DeliverKeeps | futureagi/accounts/gcp_marketplace_usage.py:467-537 | a send, answered, refused, lost or cut short, keeps the invariant and every month's sum |
| BillingSteps.ReportKeeps | futureagi/accounts/gcp_marketplace_usage.py:205-261 | a report run with any check reply, delivery and mishap keeps the invariant |
| BillingSteps.ResendReady | futureagi/accounts/gcp_marketplace_usage.py:669-701 | refused windows put back to pending are distinct, unbilled and ready to send |
| BillingSteps.TakeKeeps | futureagi/accounts/gcp_marketplace_usage.py:589-701 | every kind of step keeps the invariant |
| BillingSteps.RunCovers | futureagi/accounts/gcp_marketplace_usage.py:180-202 | over every run the rows of a metric and month sum to at most the highest billable total shown |
| BillingTheorems.ChargedIsBilledRows | futureagi/accounts/gcp_marketplace_usage.py:366-408 | Google's log of a month is the sum of exactly the rows it billed |
| BillingTheorems.NeverOverBilled | futureagi/accounts/gcp_marketplace_usage.py:286-537 | over every list of reports, resends and settlements taken one after the other, the amount billed for one entitlement, metric and month never exceeds the highest billable total the ledger has shown for it |
| BillingTheorems.EachWindowBilledOnce | futureagi/accounts/gcp_marketplace_usage.py:467-537 | over every such list no window is billed twice, and each at what a row not marked failed records |
| BillingTheorems.AddAllRows | futureagi/accounts/gcp_marketplace_usage.py:286-408 | collecting one window neither moves another's start nor changes another's quantity: a run writes what it would write window by window on the table it began with |
| BillingTheorems.UnreachedRowStays | futureagi/accounts/gcp_marketplace_usage.py:589-701 | a step changes no row but those it asks for while free, resends or settles |
| BillingTheorems.SettledRowsStay | futureagi/accounts/gcp_marketplace_usage.py:374-392 | a reported row never changes, and a pending one only by being settled |
| BillingTheorems.ReportedForEver | futureagi/accounts/gcp_marketplace_usage.py:374-392 | over every run a row once reported stays what it is |
| BillingTheorems.PendingFreezesMonth | futureagi/accounts/gcp_marketplace_usage.py:374-383 | while one window of a month waits for its outcome no report and no resend writes any window of that month |
| BillingTheorems.WindowTable | futureagi/accounts/gcp_marketplace_usage.py:304-338 | after every run windows are non-empty, those starting in one month are disjoint, and at most one of them is not reported |
| BillingTheorems.NeverAsksForReported | futureagi/accounts/gcp_marketplace_usage.py:384-392 | the branch for a window already reported cannot be reached |
| BillingMonths.AcceptedWindow | futureagi/accounts/gcp_marketplace_usage.py:199-202 | an accepted window adds exactly its month's rise, floored for integer metrics |
| BillingMonths.RiseReaches | futureagi/accounts/gcp_marketplace_usage.py:361-364 | floors telescope: the rise reaches the rounded ledger total if and only if nothing beyond it was reported |
| BillingMonths.AcceptedReconciles | futureagi/accounts/gcp_marketplace_usage.py:796-829 | after an accepted window the reconciliation shows no discrepancy if and only if the month had not been reported beyond the ledger |
| BillingMonths.PathIndependence | futureagi/accounts/gcp_marketplace_usage.py:102-202 | after any mix of refusals, crashes and settlements one accepted report leaves the month's sum at the ledger's present total |
| BillingMonths.MonthCloses | futureagi/accounts/gcp_marketplace_usage.py:306-338 | the first accepted run of a later month, also one at its first instant, closes the month reporting stopped in at its billable total, and leaves no discrepancy in it |
| BillingMonths.NewMonthStartsApart | futureagi/accounts/gcp_marketplace_usage.py:306-338 | that run bills in the new month its own billable total if the month has begun and its window is free, and otherwise nothing |
| BillingOutcomes.AllowanceIsFree | futureagi/accounts/gcp_marketplace_usage.py:145-202 | over every honest run in which the ledger shows at most a cap with a free allowance, Google bills nothing for the metric and month, or allowance and bill together stay within the cap |
| BillingOutcomes.RestIsBilled | futureagi/accounts/gcp_marketplace_usage.py:145-202 | after any honest run whose ledgers showed no more than now, an accepted report leaves the month reported at what its total exceeds the allowance by, in the units that go out |
| BillingOutcomes.AboveAllowance | futureagi/accounts/gcp_marketplace_usage.py:156-177 | without metering nothing is billable; otherwise exactly what the total exceeds the allowance by, and nothing where the ledger has no row |
| BillingOutcomes.WindowsAskedFor | futureagi/accounts/gcp_marketplace_usage.py:304-338 | by where reporting stopped: the rest of an earlier month up to this one, and what of this month has passed since, each if there is any |
| BillingOutcomes.FinalWindowsEndBefore | futureagi/accounts/gcp_marketplace_usage.py:264-283 | every window of a final report ends before the cancellation and not after now |
| BillingOutcomes.FinalEndIsLatest | futureagi/accounts/gcp_marketplace_usage.py:264-283 | the end is the latest second before the cancellation that has passed |
| BillingOutcomes.AcceptedRow | futureagi/accounts/gcp_marketplace_usage.py:341-408 | an accepted window stands reported and billed at what the ledger shows above the allowance and beyond what was reported, in the units that go out |
| BillingOutcomes.StatusAfterReply | futureagi/accounts/gcp_marketplace_usage.py:467-537 | the row of an operation: failed if an error names it, if the call was refused by a client error other than 408 and 429, or if it never left; pending if its outcome is not known; otherwise reported |
| BillingOutcomes.StatusHalfway | futureagi/accounts/gcp_marketplace_usage.py:467-537 | a process that dies marking has marked the named rows failed and no others |
| BillingOutcomes.DeathsInSending | futureagi/accounts/gcp_marketplace_usage.py:467-537 | a death before the call bills and marks nothing, one right after it bills what Google took and marks nothing |
| BillingOutcomes.TruthfulExactly | futureagi/accounts/services/gcp_service_control.py:124-144 | what Google may have billed, by the reply: all that no error names, any of it if an error names nothing, nothing of a refused or unsent call, and any part of a lost one |
| BillingOutcomes.FailsClosed | futureagi/accounts/gcp_marketplace_usage.py:205-261 | a failed check, or an exception while windows are collected, leaves every window written failed and Google with nothing |
| BillingOutcomes.DiesWaiting | futureagi/accounts/gcp_marketplace_usage.py:205-261 | a process that dies collecting leaves what it wrote pending and unbilled |
| BillingOutcomes.WrittenWindows | futureagi/accounts/gcp_marketplace_usage.py:366-408 | a run writes exactly the windows it asks for whose row is free or failed, where metering is installed |
| BillingResends.SentAgainExactly | futureagi/accounts/admin.py:679-714 | a failed window is sent by a report if and only if the report can send at all (consumer id, mapped plan and metric, metering, check passed, not cut short), reporting has not moved past the window's start, and it is where reporting stopped or lies in the run's month |
| BillingResends.OnlySentIsBilled | futureagi/accounts/gcp_marketplace_usage.py:205-261 | of a run Google bills some of the operations it got as far as sending, at their rows' quantities, and nothing else |
| BillingResends.LastWindowEndGrowsOver | futureagi/accounts/gcp_marketplace_usage.py:117-128 | over every honest run, where reporting has got to never goes back |
| BillingResends.LeftBehindForGood | futureagi/accounts/gcp_marketplace_usage.py:304-338 | a window reporting has moved past is out of reach of every later hourly and final report |
| BillingResends.RefusedClosingIsLeftBehind | futureagi/accounts/gcp_marketplace_usage.py:306-338 | refusing the closing window and accepting the new month's in one call leaves the closing window failed and behind |
| BillingOutcomes.ResentExactly | futureagi/accounts/gcp_marketplace_usage.py:621-701 | a window is among what a retry sends if and only if some row of it is failed, belongs to the entitlement and has a mapped metric |
| BillingOutcomes.AcceptedRetry | futureagi/accounts/gcp_marketplace_usage.py:669-701 | a retry that Google accepts marks each such row reported as stored and bills it once, and changes nothing else |
| BillingOutcomes.RetryCutShort | futureagi/accounts/gcp_marketplace_usage.py:669-701 | a retry cut short before sending leaves the windows it got to pending and unbilled |
| BillingOutcomes.SettlesExactly | futureagi/accounts/admin.py:716-735 | settling gives exactly the chosen rows that are pending the chosen status, and bills nothing |
| BillingOutcomes.FlaggedExactly | futureagi/accounts/gcp_marketplace_usage.py:789-829 | a month is flagged if and only if its reported sum is not what its ledger shows above the allowance, in the units that go out |
| BillingJanuary.MidnightWouldClose | futureagi/accounts/gcp_marketplace_usage.py:306-338 | the run at five past midnight on the first of the month, if accepted, closes January at its ledger and bills nothing of February |
| BillingJanuary.JanuaryLeftBehind | futureagi/accounts/gcp_marketplace_usage.py:306-338 | a January window that Google refused is not sent by the run an hour later |
| BillingJanuary.JanuarySettledByHand | futureagi/accounts/admin.py:683-714 | after an honest run from an empty table a closing window settled as not billed is failed, not queued by the next hourly run, and out of reach of every later hourly and final report |
| BillingWritable.AskedIsWritable | futureagi/accounts/gcp_marketplace_usage.py:366-408 | a window found free can be written without disturbing its month, even if reporting has got further since the run read where it stopped |
| BillingWritable.OneFreeAMonth | futureagi/accounts/gcp_marketplace_usage.py:304-338 | two rows of one metric and month that can be written are for the same window |
| BillingOverlapTheorems.StepKeeps | futureagi/accounts/gcp_marketplace_usage.py:286-537 | every step of every run, looking up, writing, giving up, sending, marking, dying or being settled, keeps the tables, the rows read up and the operations in hand in order |
| BillingOverlapTheorems.InTurnBillsOnce | futureagi/accounts/gcp_marketplace_usage.py:205-283 | however runs overlap, if no window is read up that another run still has to write, no window is billed twice and each at what its row records |
| BillingClash.SharedIsBilledTwice | futureagi/accounts/gcp_marketplace_usage.py:366-408 | from any state in which two runs have the same window to write, fair steps lead to both being billed, the month growing by both quantities |
| BillingClash.BilledOnceExactly | futureagi/accounts/gcp_marketplace_usage.py:205-283 | of a run in turn so far the next step is in turn if and only if, however the runs then end, each window is billed once |
| BillingOverlapTheorems.InTurnNeverOverBilled | futureagi/accounts/gcp_marketplace_usage.py:205-283 | and the amount billed for a metric and month never passes the highest billable total any run has read for them |
| BillingAlone.AloneIsReport | futureagi/accounts/gcp_marketplace_usage.py:205-261 | the steps of a run that nothing comes between are the report run taken as one step elsewhere, with any check reply, delivery and mishap |
| BillingAlone.AloneIsResend | futureagi/accounts/gcp_marketplace_usage.py:669-701 | and so are those of a retry of refused windows the retry taken as one step |
| BillingTwice.OverlapBillsTwice | futureagi/accounts/services/gcp_service_control.py:98-103 | an hourly and a final report that both read before either writes bill one window twice and its month at twice its ledger, every answer truthful |
| UsageReporting.UsageReporter.AddWindow | futureagi/accounts/gcp_marketplace_usage.py:341-408 | writes the row and queues the operation the specification says, or neither |
| UsageReporting.UsageReporter.CollectOperations | futureagi/accounts/gcp_marketplace_usage.py:286-338 | the loop, reading each start off the table as it stands by then, collects the requests read off the table before it began |
| UsageReporting.UsageReporter.Send | futureagi/accounts/gcp_marketplace_usage.py:467-537 | the rows and Google's log after each reply and mishap, and whether the call ends with a count, an exception or the process |
| UsageReporting.UsageReporter.ReportEntitlementUsage | futureagi/accounts/gcp_marketplace_usage.py:205-261 | is one report step, returns the number of metrics sent or raises, and keeps the invariant when Google is truthful |
| UsageReporting.UsageReporter.ReportFinalWindow | futureagi/accounts/gcp_marketplace_usage.py:264-283 | is the final step and returns what it sent: it ends just before Google's cancellation time, the check skipped |
| UsageReporting.UsageReporter.ResendCheckpoints | futureagi/accounts/gcp_marketplace_usage.py:669-701 | is the resend step and returns what it sent: the refused windows go out as stored |
| UsageReporting.UsageReporter.RetryFailedFinalWindows | futureagi/accounts/gcp_marketplace_usage.py:621-666 | resends for each cancelled entitlement in turn, counting windows resent and turns that raised; an exception costs only its own turn |
| UsageReporting.UsageReporter.Settle | futureagi/accounts/admin.py:716-735 | only pending rows are settled; the settled and the skipped add up to those chosen |
| UsageReporting.UsageReporter.ReconcileEntitlement | futureagi/accounts/gcp_marketplace_usage.py:789-829 | lists exactly the mapped dimensions whose reported sum is not the ledger's |
| UsageCounts.SendCounts | futureagi/accounts/gcp_marketplace_usage.py:467-537 | a send raises the number of reported rows by the count it returns, and by none if it raises or dies |
| UsageCounts.ReportCounts | futureagi/accounts/gcp_marketplace_usage.py:205-261 | so does a report, whatever the reply and however it is cut short |
| UsageCounts.ReportEndsHow | futureagi/accounts/gcp_marketplace_usage.py:205-261 | a report raises exactly if collecting, the check or the call does, and dies exactly where it is cut short |
| UsageCounts.ResendCounts | futureagi/accounts/gcp_marketplace_usage.py:669-701 | a retry raises the number of reported rows by the count it returns |
| UsageCounts.SweepCounts | futureagi/accounts/gcp_marketplace_usage.py:621-666 | the hourly retry counts, over all entitlements, the rows it has made reported and the turns that raised |
| UsageCounts.TurnLives | futureagi/accounts/gcp_marketplace_usage.py:621-666 | a turn that raises stops no other, and a death stops all that follow |
| Entitlements.MirrorNeverRegresses | futureagi/accounts/gcp_marketplace_events.py:192-240 | under any interleaving of fetches, checks and stores the row shows the newest of the timed answers brought to it, as long as none later is brought between a worker's check and its store |
| Entitlements.RegressesExactly | futureagi/accounts/gcp_marketplace_events.py:202-236 | the next store leaves the newest answer in the row if and only if none later has been brought since its check |
| Entitlements.OverlappingStoresRegress | futureagi/accounts/gcp_marketplace_events.py:202-236 | two workers, the older answer checked against an empty row and stored last |
| Entitlements.StoreKeepsNewestExactly | futureagi/accounts/gcp_marketplace_events.py:202-240 | the same of one store in any state, whatever the row showed before |
| Entitlements.UntimedAnswerRegresses | futureagi/accounts/gcp_marketplace_events.py:192-240 | without update times an older answer can end up over a newer one even where no two workers overlap |
| Entitlements.StoredExactly | futureagi/accounts/gcp_marketplace_events.py:192-240 | an answer is stored unless both times are known and it is older than the row; what is stored is Google's answer in every field, under the row's own organization |
| Entitlements.FetchedAndStored | futureagi/accounts/gcp_marketplace_events.py:192-240 | a fetch, its check and its store with nothing in between leave the row at what Google had, unless that was older |
| Entitlements.OutOfService | futureagi/accounts/gcp_marketplace_events.py:155-174 | exactly what was never activated, is cancelled or is suspended is out of service |
| Repair.NewestLiveIsNewest | futureagi/accounts/gcp_marketplace_events.py:155-174 | the entitlement chosen is in service and no other one is later |
| Repair.NewestExactly | futureagi/accounts/gcp_marketplace_events.py:155-174 | a row is its organization's newest if and only if it is in service and none in service is of a later purchase, a later row winning a tie |
| Repair.RoundKeepsKnown | futureagi/accounts/gcp_marketplace_events.py:584-646 | a round keeps what one organization's convergence rests on, whatever the other organizations' rows |
| Repair.RoundSettles | futureagi/accounts/gcp_marketplace_events.py:584-797 | a round never adds to an organization's rows whose status still has to move, and unless it is quiet takes from them |
| Repair.QuietRoundsRepair | futureagi/accounts/gcp_marketplace_events.py:729-797 | once quiet, an organization is left on the plan of its newest entitlement Google serves if and only if no purged live row is newer, or it was on that plan already |
| Repair.QuietRoundIsStable | futureagi/accounts/gcp_marketplace_events.py:584-679 | the rounds after a quiet one leave the organization's subscription as it is |
| Repair.RepairConverges | futureagi/accounts/gcp_marketplace_events.py:584-797 | organization by organization, whatever becomes of the others: after more rounds than it has rows to settle its subscription stays, and with no newer purged row it is on its newest served plan |
| RepairOutcome.ConvergesExactly | futureagi/accounts/gcp_marketplace_events.py:584-797 | an organization ends on its newest served plan if and only if no purged live row of it is newer, or the rows that left service before that one, the rows Google activated and the subscription at the start come to that plan |
| RepairOutcome.EndsOnOutcome | futureagi/accounts/gcp_marketplace_events.py:584-797 | behind a purged purchase the subscription ends where the starting rows say: on the plan of the last heir, of the last row activated, or where it was |
| Repair.RepairsEveryStartExactly | futureagi/accounts/gcp_marketplace_events.py:584-797 | from settled rows every starting subscription is repaired if and only if no purged live row is newer |
| Repair.PurgedRowStrands | futureagi/accounts/gcp_marketplace_events.py:584-797 | one organization with a served and a newer purged purchase, which no number of rounds moves to the served one's plan |
| Repair.LeavesServiceExactly | futureagi/accounts/gcp_marketplace_events.py:729-797 | a live row leaves service in a round if and only if it is its organization's newest and Google answers that it has |
| Repair.LastOneEnds | futureagi/accounts/gcp_marketplace_events.py:129-138 | where the newest live row has left service at Google and no other is live, the first pass leaves the organization on the free plan, billed by card, its interval as it was |
| Repair.NoPaidPlanUnbacked | futureagi/accounts/gcp_marketplace_events.py:649-679 | after any round an organization with no row in service or awaiting activation is not Marketplace-billed on a paid plan; if it was, it is on the free plan, billed by card |
| Repair.BackedPlansStay | futureagi/accounts/gcp_marketplace_events.py:649-679 | the last pass leaves an organization with such a row as it is |
| Repair.LivePlanApplied | futureagi/accounts/gcp_marketplace_events.py:96-126 | a newest live row that Google serves puts its organization on the plan and interval its Marketplace plan maps to, and changes nothing where it maps to none |
| Repair.RowsAfter | futureagi/accounts/gcp_marketplace_events.py:584-797 | row by row, a round fetches the newest of each organization and then those awaiting activation, and touches no other |
| Repair.OneActivated | futureagi/accounts/gcp_marketplace_events.py:682-716 | a pending row that Google has activated puts its organization on its plan, if no other does |
| Repair.PurgedRowNeverLeaves | futureagi/accounts/gcp_marketplace_events.py:192-210 | a row whose record Google has purged stays as it is for ever |
| RepairTails.TailOnceExactly | futureagi/accounts/gcp_marketplace_events.py:427-456 | over any number of rounds each entitlement the repair takes out of service is charged its tail once, and no other is charged one |
| RepairTails.OwesExactly | futureagi/accounts/gcp_marketplace_events.py:427-456 | a live row owes its tail if and only if Google says it has left service, and, where it only awaits activation there, usage was reported |
| RepairTails.TailsExactly | futureagi/accounts/gcp_marketplace_events.py:427-456 | the first pass charges the tails of exactly the newest live rows that owe one |
| EntitlementRepairing.FirstListedIsNewest | futureagi/accounts/gcp_marketplace_events.py:584-646 | the first row the ordered query lists for an organization is its newest in service |
| EntitlementRepairing.EntitlementRepair.SyncEntitlement | futureagi/accounts/gcp_marketplace_events.py:192-240 | mirrors one row, or reports that Google has none |
| EntitlementRepairing.EntitlementRepair.ApplyPlan | futureagi/accounts/gcp_marketplace_events.py:96-126 | sets exactly the row's organization to its mapped plan |
| EntitlementRepairing.EntitlementRepair.DowngradeOrgToFree | futureagi/accounts/gcp_marketplace_events.py:129-138 | hands exactly one organization back to the free plan |
| EntitlementRepairing.EntitlementRepair.SettleLeftService | futureagi/accounts/gcp_marketplace_events.py:427-456 | the organization goes to its newest other entitlement or to free, and the tail is charged where the entitlement was live or has checkpoints |
| EntitlementRepairing.EntitlementRepair.ReconcileEntitlementPlan | futureagi/accounts/gcp_marketplace_events.py:729-797 | brings one row and its organization to Google's truth, charges the tail it owes and touches no other |
| EntitlementRepairing.EntitlementRepair.ReconcileLive | futureagi/accounts/gcp_marketplace_events.py:584-646 | the loop with its seen set repairs each organization once, by its newest row, and charges its tail, as the simultaneous first pass would |
| EntitlementRepairing.EntitlementRepair.ReconcilePending | futureagi/accounts/gcp_marketplace_events.py:682-716 | the loop over pending rows is the second pass, activated rows put on their plan |
| EntitlementRepairing.EntitlementRepair.ReconcilePaidWithoutEntitlement | futureagi/accounts/gcp_marketplace_events.py:649-679 | frees exactly the paid marketplace plans no row backs |
| EntitlementRepairing.EntitlementRepair.ReconcileEntitlementPlans | futureagi/accounts/gcp_marketplace_events.py:584-646 | one hourly repair is one round, with the tails of its first pass |
| ProcessedEvents.LedgerKeyInjective | futureagi/accounts/gcp_marketplace_events.py:800-807 | among the handled types the ledger key tells every two events apart |
| ProcessedEvents.ExactlyOnce | futureagi/accounts/gcp_marketplace_events.py:810-855 | under any redelivery, concurrency and crash schedule a handler commits at most once, exactly once if the ledger holds its key, and its tail is charged at most once |
| ProcessedEvents.SiblingsNotSwallowed | futureagi/accounts/gcp_marketplace_events.py:800-807 | events sharing an id but not a type are still taken |
| ProcessedEvents.RollbackLeavesNothing | futureagi/accounts/gcp_marketplace_events.py:386-409 | a rolled-back handler leaves neither a ledger row nor a charge, and its event can be taken again |
| ProcessedEvents.DeliveredExactly | futureagi/accounts/gcp_marketplace_events.py:810-855 | a delivery opens a transaction if and only if its event has an id and a handled type, is not in the ledger, and no other worker has its key open |
| ProcessedEvents.TailFollowsCommit | futureagi/accounts/gcp_marketplace_events.py:386-409 | a commit leaves a tail due exactly if its handler left one, and the next step of its worker charges that event's tail |
| ProcessedEvents.EventDesk.ProcessEvent | futureagi/accounts/gcp_marketplace_events.py:810-855 | one delivery is the delivery step, and says whether it was taken |
| ProcessedEvents.EventDesk.ChargeTail | futureagi/accounts/gcp_marketplace_events.py:386-409 | the tail is charged only from what a commit left due |
| Approvals.ApprovalOrder | futureagi/accounts/gcp_marketplace_utils.py:321-373 | over every run an account is approved only after its organization had a user, and an entitlement only after its own account |
| Approvals.LostApprovalIsRecorded | futureagi/accounts/gcp_marketplace_utils.py:328-339 | an approval whose answer was lost is recorded by the next attempt, without a second call |
| Approvals.HeldUnlessReopened | futureagi/accounts/gcp_marketplace_utils.py:321-339 | over every run an account taken as approved is one Google holds approved, if and only if Google has not put it back to pending since |
| Approvals.EntitlementUnderHeld | futureagi/accounts/gcp_marketplace_events.py:272-304 | an entitlement is approved under an approval that holds, if and only if its account was not reopened |
| Approvals.RejoinedUnderOldApproval | futureagi/accounts/gcp_marketplace_events.py:254-269 | a customer who left and came back: the new entitlement is approved while the account is pending |
| Approvals.RepairsExactly | futureagi/accounts/gcp_marketplace_utils.py:342-373 | an attempt of the hourly repair approves and records an account that waits, records one Google already approved, and changes nothing where the account is on record or its organization has no user |
| Approvals.RepairReleases | futureagi/accounts/gcp_marketplace_utils.py:342-373 | an answered attempt on an account that waits adds its approval and those of the entitlements it holds, in that order; a refused one, or one on another account, changes nothing |
| Approvals.RecoveredCount | futureagi/accounts/gcp_marketplace_utils.py:342-373 | the count of the hourly repair is the number of its attempts that end with the approval held |
| Approvals.SignupCompletes | futureagi/accounts/gcp_marketplace_utils.py:491-566 | a completed sign-up is the user, the account's approval at Google and on record, then the held entitlements |
| Approvals.ReleasesExactly | futureagi/accounts/gcp_marketplace_utils.py:456-488 | releasing what an account holds approves each entitlement Google does not refuse, in order, and does nothing else |
| Approvals.CreationApprovesExactly | futureagi/accounts/gcp_marketplace_events.py:272-304 | a new entitlement is approved if and only if it awaits activation, its account's approval is on record and Google does not refuse |
| Approvals.SignupDesk.ApproveSignup | futureagi/accounts/gcp_marketplace_utils.py:321-339 | is the account approval step, and says whether Google's approval is held |
| Approvals.SignupDesk.ApprovePendingEntitlements | futureagi/accounts/gcp_marketplace_utils.py:456-488 | one call for each held entitlement of the account, counting those answered |
| Approvals.SignupDesk.ProcessSignup | futureagi/accounts/gcp_marketplace_utils.py:491-566 | is the user, then the account's approval, then what it held, in that order, and nothing for a refused sign-up |
| Approvals.SignupDesk.ReconcileUnapprovedAccounts | futureagi/accounts/gcp_marketplace_utils.py:342-373 | is the account approval and release of each waiting account in turn, counting those recovered |
| Approvals.SignupDesk.HandleCreationRequested | futureagi/accounts/gcp_marketplace_events.py:272-304 | mirrors the entitlement, and approves it only under a recorded account approval |
| Onboarding.OneOrganization | futureagi/accounts/gcp_marketplace_utils.py:223-286 | under any interleaving at most one organization is made and linked, and every token minted names it |
| Onboarding.OnboardsAlone | futureagi/accounts/gcp_marketplace_utils.py:223-286 | a worker that finds no organization makes, links and names one; one that finds an organization names that |
| Onboarding.SecondLinksFirst | futureagi/accounts/gcp_marketplace_utils.py:223-286 | a worker that waited for the lock finds what the one before it linked, and makes none |
| Onboarding.LocksOnlyUnlinked | futureagi/accounts/gcp_marketplace_utils.py:223-286 | the lock is taken by a worker that found no organization, and by no other |
| Tokens.AcceptedExactly | futureagi/accounts/saml_credential.py:40-94 | a token is accepted if and only if it is live and, if SAML issued it, within its organization, provider and generation |
| Tokens.LastUseStays | futureagi/accounts/authentication.py:964-979 | after an accepted use the stored last use stays that moment until the next accepted one |
| Tokens.AcceptedUsesAreClose | futureagi/accounts/authentication.py:964-1077 | consecutive accepted uses of a token are at most the limit apart |
| Tokens.IdleForEver | futureagi/accounts/authentication.py:1037-1077 | on a clock that does not go back a token denied for inactivity is denied for ever |
| Tokens.IdleIsDeactivated | futureagi/accounts/authentication.py:1037-1077 | a use denied for inactivity leaves its row inactive and all else as it was, and every other denial leaves every row as it was |
| Tokens.DeactivatedForEver | futureagi/accounts/authentication.py:1037-1077 | so later uses are denied whatever the clock says |
| Tokens.DeniedBecause | futureagi/accounts/authentication.py:1015-1077 | each denial of a token that SAML did not issue has exactly its cause |
| Tokens.FirstBoundaryDenies | futureagi/accounts/saml_credential.py:40-94 | a SAML token is denied for the first boundary it is outside of |
| Authentication.Authenticator.TouchNonSamlAccessToken | futureagi/accounts/authentication.py:964-979 | touches exactly the live, fresh, non-SAML access token of an active user |
| Authentication.Authenticator.DecodeToken | futureagi/accounts/authentication.py:982-1090 | for any cache contents the result, user, scope and rows are those of the table alone; a SAML token is never cached |
| Authentication.PresentedExactly | futureagi/accounts/authentication.py:982-1015 | a presented token is accepted if and only if it decrypts to a live token within its scope; an empty and an undecryptable one are denied as such |
| RateLimiting.RunSpaced | futureagi/accounts/authentication.py:838-868 | any run of admissions longer than the limit spans at least a window |
| RateLimiting.AtMostMaxPerWindow | futureagi/accounts/authentication.py:838-868 | no window of an hour, wherever it starts, holds more admissions than the limit |
| RateLimiting.AdmittedExactly | futureagi/accounts/authentication.py:802-868 | a request is admitted if and only if no block is running and fewer than the limit were admitted in the last hour |
| RateLimiting.BlockedUntilTheEnd | futureagi/accounts/authentication.py:808-836 | once the limit is reached every request before the block ends is refused and changes nothing |
| RateLimiting.StoreMirrors | futureagi/accounts/authentication.py:855-868 | the pruned list under its expiry decides now and later as the full history would |
| RateLimiting.FaithfulStep | futureagi/accounts/authentication.py:808-836 | every verdict leaves the cache entries faithful to the history |
| RateLimiting.Limiter.Admit | futureagi/accounts/authentication.py:802-870 | each verdict is the one all the bucket's requests call for, and other buckets are left alone |
| RateLimiting.Limiter.NeverOverLimit | futureagi/accounts/authentication.py:802-870 | however requests of buckets mix, no bucket of the middleware has more admissions in an hour than the limit |
| EnvReferences.MatchName | scripts/env_reference.py:59 | the longest name a position starts with |
| EnvReferences.NameIsLongest | scripts/env_reference.py:59 | a name is an ASCII letter or underscore and every letter, digit and underscore that follows |
| EnvReferences.OperatorIs | scripts/env_reference.py:111-117 | the operator is a minus, question mark or plus, with the colon before it if there is one |
| EnvReferences.UnclosedReference | scripts/env_reference.py:101-119 | a reference nobody closes is yielded too, without the last character of the text |
| EnvReferences.SkipBraces | scripts/env_reference.py:101-109 | the depth loop stops right after the brace that closes the reference, or at the end |
| EnvReferences.FindReferences | scripts/env_reference.py:84-125 | the loop with its recursion ends on every text and yields its references in order, outer before nested |
| EnvReferences.ConsumedOverDoc | scripts/env_reference.py:101-109 | a well-formed argument is read through to its own closing brace at any depth |
| EnvReferences.ReadBraced | scripts/env_reference.py:96-119 | name, operator and argument of a printed reference come back, and reading goes on after its brace |
| EnvReferences.RoundTrip | scripts/env_reference.py:84-125 | every well-formed interpolation tree, printed, is read back as its references in preorder with operators and printed arguments |
| BudgetFit.PrefixIsShorter | futureagi/ai_tools/generated.py:187-190 | a prefix of a list is no longer in compact JSON |
| BudgetFit.FitsDownward | futureagi/ai_tools/generated.py:193-214 | if a prefix fits, in place in the result, so do all shorter ones |
| BudgetFit.LongestList | futureagi/ai_tools/generated.py:204-208 | finds the first of the longest lists among the fields |
| BudgetFit.LongestFit | futureagi/ai_tools/generated.py:223-237 | the binary search ends and finds the longest fitting prefix of at least one item, or one item if none fits |
| BudgetFit.OneBestFit | futureagi/ai_tools/generated.py:223-238 | the best fit is unique |
| BudgetFit.BiggerBudget | futureagi/ai_tools/generated.py:223-238 | a bigger budget never shows less |
| BudgetFit.FitToBudget | futureagi/ai_tools/generated.py:193-238 | gives the best fit of the longest list, or nothing exactly when there is no item to drop |
| BudgetFit.FittedIs | futureagi/ai_tools/generated.py:193-238 | on the result alone: its first longest list cut short, everything else as it was, within the budget if more than one item is left |
| BudgetFit.OneMoreIsTooMany | futureagi/ai_tools/generated.py:223-238 | with any more items the result is over the budget |
| BudgetFit.RenderResult | futureagi/ai_tools/generated.py:241-262 | renders whole what fits or cannot be trimmed; otherwise the best fit, with the count line if and only if items are missing |
| BudgetFit.StaysInsideCap | futureagi/ai_tools/generated.py:179-184 | with a fitting payload the count line stays inside the caller's cap |
| BudgetFit.DecimalReads | futureagi/ai_tools/generated.py:258-261 | a count in the note, read back, is the count, in digits without a leading zero |
| SpanTree.MetItself | e2e/lib/otlp.ts:114-120 | a parent chain that meets itself never ends |
| SpanTree.FindsCycle | e2e/lib/otlp.ts:114-120 | the walk always ends, and finds a cycle if and only if climbing would not |
| SpanTree.CollectLinks | e2e/lib/otlp.ts:107-111 | the parent map is built if and only if the ids are unique, and holds exactly the spans' parents |
| SpanTree.EndingReaches | e2e/lib/otlp.ts:112-121 | where every parent belongs to the trace a chain that ends has reached the root |
| SpanTree.CheckTrace | e2e/lib/otlp.ts:94-121 | a trace passes if and only if its ids are unique and every extra span reaches the root; each error names a fault the trace has |
| MergePricing.SkippedExactly | agentcc-gateway/scripts/merge_pricing.py:38-41 | a model is left out if and only if it has no charge for input or one by a rule the program does not know |
| MergePricing.ChargesInFull | agentcc-gateway/scripts/merge_pricing.py:19-47 | a converted model charges for everything it is charged for, at the models.dev price |
| MergePricing.PricedExactly | agentcc-gateway/scripts/merge_pricing.py:19-47 | each of the three prices is there if and only if models.dev charges it, under its own field, and a million of it is the listed price |
| MergePricing.LimitedExactly | agentcc-gateway/scripts/merge_pricing.py:48-52 | each limit is the listed one, if there is one, and no output limit for an embedding model |
| MergePricing.StatesOnlyWhatHolds | agentcc-gateway/scripts/merge_pricing.py:42-59 | a converted entry states a flag only as true and only for a capability the model has, and no output limit for an embedding model |
| MergePricing.ProvidersDoNotCollide | agentcc-gateway/scripts/merge_pricing.py:13-17 | no provider's entry is hidden by another provider's |
| MergePricing.ConvertedExactly | agentcc-gateway/scripts/merge_pricing.py:13-17 | a key is converted if and only if one of the three providers lists a priced model that goes under it with the provider's prefix |
| MergePricing.ConvertedNames | agentcc-gateway/scripts/merge_pricing.py:13-17 | each entry names the provider and the mode its prefix stands for, or the embedding mode |
| MergePricing.ConvertedKeys | agentcc-gateway/scripts/merge_pricing.py:33-62 | the converted keys are exactly those of the priced models |
| MergePricing.ConvertedEntry | agentcc-gateway/scripts/merge_pricing.py:33-62 | each key holds the entry of the last priced model under it |
| MergePricing.Convert | agentcc-gateway/scripts/merge_pricing.py:33-62 | the loops give those entries and the number of models skipped |
| MergePricing.SkippedAreCounted | agentcc-gateway/scripts/merge_pricing.py:38-41 | the count of skipped models is how many there are |
| MergePricing.CarryFlags | agentcc-gateway/scripts/merge_pricing.py:86-93 | carries exactly the old true flags the entry leaves unsaid, and counts them |
| MergePricing.Merge | agentcc-gateway/scripts/merge_pricing.py:69-105 | the new catalogue key by key; the three counts add up to its size and the fourth is the number of flags carried |
| MergePricing.UpstreamWins | agentcc-gateway/scripts/merge_pricing.py:69-93 | what upstream states stands, and all that is added is a true capability flag it leaves unsaid |
| MergePricing.KeptAsIs | agentcc-gateway/scripts/merge_pricing.py:69-97 | what upstream does not list stays as it is unless models.dev had filled it in, and only what neither lists is filled in |
| MergePricing.TrueFlagSurvives | agentcc-gateway/scripts/merge_pricing.py:82-93 | a true flag survives a merge if and only if upstream neither states it otherwise nor puts a non-dictionary in its place |
| MergePricing.FlagSurvivesUpdates | agentcc-gateway/scripts/merge_pricing.py:82-93 | over any run of updates that leave the flag unsaid it stays true |
| MergePricing.FilledIsCurrent | agentcc-gateway/scripts/merge_pricing.py:72-97 | an entry marked models.dev that upstream does not list is what models.dev says now |
| MergePricing.MergeIsIdempotent | agentcc-gateway/scripts/merge_pricing.py:69-105 | merging the result again changes nothing if and only if no flag was carried into an upstream entry carrying the models.dev mark |
| MergePricing.SecondMergeDrops | agentcc-gateway/scripts/merge_pricing.py:69-105 | an upstream entry with the mark and a current one with a true flag: the first merge carries the flag, the second drops it |

## Left out

Billing:

- NeverOverBilled: per entitlement, as the code sums; totals of one organization across two entitlements, and a metric unreported for a whole calendar month, are not covered. Runs are taken one after the other here; overlapping runs are in `BillingOverlapTheorems`. Google is taken to bill what it accepts and nothing it refuses, and a person to settle a window as what it was.
- EachWindowBilledOnce: runs are taken one after the other, as above.
- InTurnBillsOnce: where reporting stopped may have been read at any time before; a month's reported sum and whether the window's row is free are read in one step. A window is settled by hand only when no run has it in hand.
- InTurnNeverOverBilled: says nothing of runs out of turn, which need not over-bill, for a window billed twice may be one of quantity zero; by how much they can is `SharedIsBilledTwice`.
- MonthCloses: covers the month the last window ended in, the only one the code closes.
- The operation id is the window's name here; that a fresh uuid never repeats is taken for granted. The wire types and labels of an operation, logs, alerts and the counters of the hourly sweep beyond the resends are not modelled.
- `billable_entitlements` (which entitlements a sweep picks) and the alert for windows stuck pending.

Entitlements:

- RepairConverges: takes Google's answers as standing still and account links as fixed. A watched row that can be fetched is taken to date from the same purchase as at Google and not to be ahead of it. Rows are in order of creation.
- SyncEntitlement: the row keeps its organization; the code looks its account and organization up again, which with fixed account links gives the same.
- ReconcileEntitlementPlan: the counters, and the alert for a missing consumer id, are not modelled; a fetch that raises leaves the row as it is, like one Google has purged.
- ReconcilePending: approving what is still pending is `Approvals`, not part of this pass.
- ReconcileEntitlementPlans: the counters of the repair are not modelled.
- MirrorNeverRegresses: about timed answers. The repair and the handlers of the other modules fetch and store in one step.
- UntimedAnswerRegresses: with Google leaving out an update time the code stores the answer unconditionally.
- ProcessEvent: a handler is reduced to whether it leaves a tail, and the commit or rollback that ends its transaction is a method of its own; what it writes is rolled back with its transaction.
- ChargeTail: when a handler leaves a tail is given here; the repair's test for it is in `RepairTails.OwesTail`.
- ApprovePendingEntitlements: linking orphan rows, mirroring Google's listing and rejecting duplicates are not modelled; a duplicate that is skipped is a call that does not happen (`Refused`).
- ProcessSignup: email checks, memberships and the onboarding token are not modelled; `resumes` says whether the form's email is the user already there. "Not pending" at Google means approved.
- HandleCreationRequested: rejecting a duplicate is a call for the entitlement that does not happen (`Refused`).
- OneOrganization: on values, one account and its workers; deletion of accounts, token expiry and the user identity field are not modelled.
- `handle_offer_accepted`, `handle_entitlement_deleted`, plan-change and renewal handlers: single handlers that apply what the repair also applies.

Tokens and limiter:

- DecodeToken: decryption is a map from tokens to claims, a cached user is its id and active flag, cache expiry is covered by arbitrary cache contents; transports, error texts and logs are not modelled. Each call is one step: concurrent calls on one token are not covered.
- IdleForEver: one call after another, as above; a use accepted while another call is denied is outside the claim.
- Admit: one bucket for each address and endpoint family; the open-source bypass and finding the client's address are not modelled. Requests are taken one at a time, and clock times are exact.

Algorithms:

- RoundTrip: beyond literals without dollars and braces, a bare name must end where it seems to, and a reference without operator must not have an argument that reads as one; otherwise the printed text is that of another tree. `strip_comments` and the classification of the inventory are not modelled.
- LongestFit: an atom and an object key are the text the serializer writes for them.
- CheckTrace: ids are the numbers their sixteen hex digits write; timestamps and the payload are not modelled.
- Merge: dictionaries are values, so the order of keys, and that carrying a flag also writes it into the caller's upstream dictionary, are not captured; prices are exact numbers where the program rounds to a float. Field names are told apart by kind (`Supports`, the names this program writes, any other).
