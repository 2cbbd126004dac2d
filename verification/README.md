# Verification models of the trading dashboard

These Dafny modules model the parts of the dashboard whose correctness is hardest to see from the code: the
trading-history engine, the protocols it runs over Redis and the brokers, its text and key codecs, the replicated store
and the derived account index. `dafny verify dfyconfig.toml` checks all of them.

## What is modelled

- **Trading history** (`Episodes`, `EpisodeDeals`, `Exposure`, `MonthLedger`, `History`, `LedgerMeaning`, `Weeks`,
  `Sessions`, `Drawdown`, `RuleMeaning`). A stream of deals is folded
  into episode objects that are updated in place; balance months, weekly counts, session repeats, the risk verdict and the
  drawdown scan are the engine's own loops. Each loop is proved against a definition on whole sequences, and the
  definitions are proved to conserve profit and volume, telescope, partition time and agree with the pairwise drawdown.
  `EpisodeDeals`, `LedgerMeaning` and `RuleMeaning` say what episodes, rows and rules mean in the deals' own fields.
- **Intents** (`IntentProtocol`, `IntentApprovals`, `IntentRaces`, `IntentStore`, `DueTime`, `DueShapes`,
  `Calendar`). Every Redis command of every worker, operator and expiry is a
  step; workers may crash anywhere. An operator action is a read and a later write of the whole task. At-most-once needs
  only that executing writes still hold their lock and that operator writes store no open status over an entered intent
  (`Safe`); results that also need fresh operator writes say so (`Timely`). `IntentRaces` states over all runs, without
  either assumption, what can still happen to an intent, and runs that break each assumption are given.
- **Position management** (`ManagerDomain`, `MutationLedger`, `PositionManager`, `PositionSafety`, `PositionOutcomes`,
  `PositionLevels`, `CycleMeaning`). The broker confirms,
  throws after or without effect, or the process dies before or after the call; the broker's own holding is kept apart
  from the copy the cycle works on. Runs on one account do not overlap.
- **Text and keys** (`Texts`, `Pagination`, `PageReading`, `CanonicalJson`, `JsonText`, `OriginKeys`, `KeyShapes`, `BrokerTask`,
  `TaskFields`,
  `Ordering`, `Common`). Strings are sequences
  of Unicode characters that count one or two UTF-16 units; sorting is by UTF-16 unit.
- **Redis** (`RedisStore`, `FailoverProtocol`, `FailoverLimits`, `FailoverCalls`, `RedisClient`, `RedisSync`). Commands are deterministic functions of the
  value at one key. In the protocol a store named `single` runs beside primary and backup and executes each call once,
  at the command that decides its reply. A call reads the clock twice: once to decide whether to fetch the marker, once
  to decide between the stores.
- **MT5 bridge** (`BridgeProtocol`, `BridgeDelivery`, `BridgeStore`). One task with its queue and arbiter keys. The executor's source is not
  part of this model; an executor is only taken to win the set-if-absent claim before it runs or writes, and may run any
  number of times and write any status. Results that need more name it as a hypothesis.
- **Auto-bind** (`AutoBind`, `AutoBindRegistry`). The account table and the exact and login keys derived from it.

The classes (`Episode`, `Store`, `Ledger`, `Manager`, `Databases`, `Client`, `Synchroniser`, `Bridge`, `Registry`) hold
the fields the program updates; their methods are tied to functions on values or to protocol steps, about which the
lemmas speak.

## Where the code does less than expected

- A cancellation that falls between a worker's read and its executing write is reported as done, yet the intent is
  executed (`IntentStore.CancelledIntentIsExecuted`). So is one that an approval read before it is written over
  (`IntentStore.StaleApprovalRevivesCancelled`). Over all runs it is final exactly when no worker has loaded the task, with
  or without the lock, and no operator is about to write an open status over it (`IntentRaces.CancelIsFinalIff`).
- The stale mark reads and writes the whole task, so `uncertain` can overwrite a result that was reported in between
  (`IntentStore.StaleMarkOverwritesResult`); the result stays exactly when no later operator write stores another status
  (`IntentRaces.ResultKeptIff`).
- A stale approval, and a lock that expires before the executing write, each execute an intent twice
  (`IntentStore.StaleApprovalExecutesTwice`, `IntentStore.ExpiredLockExecutesTwice`); the exact conditions are
  `IntentRaces.ExecutionAfterWriteIff` and `IntentRaces.SecondExecutionAfterEnterIff`.
- An INOUT deal without open position loses its profit, and one smaller than the open position closes all of it.
- A positive amount booked as a withdrawal is taken off the balance chain although the reconstruction added it, and a
  negative deposit is ignored; the chain is off by exactly that drift (`MonthLedger.LedgerKeepsBalanceIff`).
- The running peak understates a fall to a negative equity from a positive equity below the peak
  (`Drawdown.PairExceedsPeakIff`).
- "At most once per R level" holds per (level, volume). A level is closed again after its mark was lost: because the close
  took effect without being confirmed (`PositionSafety.AmbiguousOutcomeClosesLevelTwice`), or because the process died
  later in the cycle although the close was confirmed (`PositionOutcomes.LosesMarkIff`).
- After a partial close that took effect but threw, an armed rule can close what is left
  (`PositionSafety.AmbiguousOutcomeEmptiesPosition`); close-at-R aside, nothing else takes a position below the
  minimum
  (`PositionOutcomes.RunKeepsMinimumIff`).
- A close at R that threw without effect stays uncertain in the ledger and is never sent again at that level, even if the
  position is still open (`PositionOutcomes.CloseAtRStaysStuck`).
- A call whose local flag runs out between its two readings of the clock goes to the demoted primary although the marker is
  set, and two callers in sequence can then win one lock (`FailoverLimits.RunOutFlagBothWin`); only that one
  reply can be wrong (`FailoverLimits.RunOutFlagHarmsOneReply`).
- Two overlapping calls on one key can both win a set-if-absent lock when one of them fails over
  (`FailoverLimits.OverlappingCallsBothWin`), and so can two calls in sequence while a process routes by its own flag before
  the shared marker is written (`FailoverLimits.UnwrittenMarkerBothWin`). `FailoverLimits.OverlapRepliesIff` and
  `FailoverLimits.UnwrittenMarkerIff` say for which commands this shows.
- Synchronising the backup leaves keys there that the primary no longer has.
- A caller that loses the cancellation race is told `uncertain` even if another caller's cancellation won
  (`BridgeProtocol.LoserIsToldUncertain`).
- Deleting an exact auto-bind key can remove the entry of another enabled account: the index is sound, not complete.
- A date text outside the calendar is accepted: a day past the end of its month, such as 30 February, is taken for a day
  of the next month, and a year below 100 for one of the twentieth century (`DueTime.ResolveVietnamDueAt`).
- The origin parsers trim first, so they accept keys with surrounding white space; the H1 pattern lists hour 14, which is
  never accepted.

## Model

| member | source | states |
|---|---|---|
| `Episodes.NormalizeEpisodes` | dashboard/src/lib/neotech-public-engine.ts:143-179 | The fold that updates episode objects in place returns fresh, distinct objects whose values are the deal-by-deal run over the deals in time-and-ticket order |
| `Episodes.ProcessDeal` | dashboard/src/lib/neotech-public-engine.ts:153-177 | One deal changes the objects exactly as one step of the run does, in every branch (IN, OUT, OUT_BY, INOUT, unidentified) |
| `Episodes.EpisodesStaySound` | dashboard/src/lib/neotech-public-engine.ts:83-179 | After any ordered stream at most one episode per (position, symbol) is open, closed ones hold no volume and close no earlier than they opened, and every weighted price lies between the lowest and highest merged entry price |
| `Episodes.ProfitConserved` | dashboard/src/lib/neotech-public-engine.ts:123-138 | Total episode profit plus the P/L of exactly the dropped deals (no identity, or a reducing deal without open position) equals the total P/L of all deals |
| `Episodes.ReversalWithoutPositionLosesProfit` | dashboard/src/lib/neotech-public-engine.ts:165-176 | An INOUT deal without open position opens an episode but loses its own P/L: all profit is kept if and only if that P/L is zero |
| `Episodes.AdverseMovesAverage` | dashboard/src/lib/neotech-public-engine.ts:114-128 | An addition conserves the cost of the position, and its adverse mark is set exactly when the average price moved against the side |
| `Episodes.EveryEpisodeHasItsOpener` | dashboard/src/lib/neotech-public-engine.ts:83-112 | Every episode of a run was opened by an IN or INOUT deal of the stream and keeps the identity, side, time, tickets and price that deal fixed |
| `EpisodeDeals.EpisodeSumsItsDeals` | dashboard/src/lib/neotech-public-engine.ts:83-179 | Every episode is the sum of its own deals, from the one that opened it to the last it received: product, volume, profit, evidence and widest stop are theirs, and it is closed, at the time of the last one, exactly when that is a reversal or an exit that leaves only dust |
| `EpisodeDeals.ClosedByItsDeal` | dashboard/src/lib/neotech-public-engine.ts:132-176 | A closed episode was open until one exit or reversal of its position and product, and bears that deal's time |
| `EpisodeDeals.DealsInOrder` | dashboard/src/lib/neotech-public-engine.ts:143-145 | The fold sees all deals by time, those of one time by ticket, unit by unit, and those alike as they were given |
| `Exposure.NetVolumeFollowsDeals` | dashboard/src/lib/neotech-public-engine.ts:83-179 | After any stream of regular deals the net open volume of the episodes is the signed sum of all deals, up to one dust volume per deal |
| `Exposure.ReversalFollowsIff` | dashboard/src/lib/neotech-public-engine.ts:165-176 | A reversal follows the deal, up to dust, if and only if it is not smaller than the open position; a smaller one closes the whole position |
| `MonthLedger.BuildMonths` | dashboard/src/lib/neotech-public-engine.ts:281-301 | Each row opens with the balance all earlier windows lead to, carries that window's trading profit, deposits and withdrawals, and has the status its return and end time demand |
| `LedgerMeaning.MonthsSay` | dashboard/src/lib/neotech-public-engine.ts:257-301 | In plain sums over milliseconds and signed amounts: contiguous windows of thirty days up to now; the first opens with the balance less all profit and flows since, but not below a cent, each other one with what the one before leaves; and what each row says about its window |
| `MonthLedger.LedgerResidual` | dashboard/src/lib/neotech-public-engine.ts:257-301 | For every input the chain ends at the reported balance plus three explicit residuals: the raise to the floor, wrongly signed flows, and events past the last window |
| `MonthLedger.LedgerKeepsBalanceIff` | dashboard/src/lib/neotech-public-engine.ts:257-301 | For flows of any sign and no later events the chain ends at the reported balance if and only if the raise to the floor and the drift of wrongly signed flows cancel; unraised, if and only if negative deposits make up for twice the positive withdrawals |
| `History.HistoryIsDated` | dashboard/src/lib/neotech-public-engine.ts:143-184 | No episode made of deals up to now opens or closes later than now, and none closes before it opened |
| `History.HistoryReconciles` | dashboard/src/lib/neotech-public-engine.ts:143-301 | From the deal stream to the last row: every settled episode falls into one of the months, and the chain ends at the reported balance if and only if what settled profit and flows leave over reaches the floor |
| `Weeks.BuildWeeks` | dashboard/src/lib/neotech-public-engine.ts:231-255 | The rows run from the counting start to the week that holds now; each counts the entries of its window and has the status its count and end time demand |
| `RuleMeaning.WeeksSay` | dashboard/src/lib/neotech-public-engine.ts:195-255 | The table starts on the server's first Monday midnight from the day of the earliest entry on; each row spans seven days, counts the entries of its span and needs three |
| `Weeks.WeeksPartitionSpan` | dashboard/src/lib/neotech-public-engine.ts:231-255 | Windows are contiguous, and every instant of the span lies in exactly one of them |
| `Weeks.SignalsSumToEntries` | dashboard/src/lib/neotech-public-engine.ts:231-255 | The signal counts add up to the number of episodes entered in the span |
| `Sessions.EffectiveSessions` | dashboard/src/lib/neotech-public-engine.ts:201-218 | The cascade of overlapping session windows resolves to disjoint ones; which minutes belong to none depends on the season |
| `Sessions.C5Occurrences` | dashboard/src/lib/neotech-public-engine.ts:315-333 | The double loop counts exactly the in-session episodes that an earlier one shares symbol, session and server day with |
| `RuleMeaning.RepeatsAre` | dashboard/src/lib/neotech-public-engine.ts:201-333 | A counted repeat is an entry of the month, in a session by its server minutes, that an earlier one of the month shares product, server day and session with; ties in time go by ticket, unit by unit |
| `Sessions.RepeatsAreMembersMinusSlots` | dashboard/src/lib/neotech-public-engine.ts:315-333 | That count is the number of in-session episodes minus the number of distinct (symbol, session, day) slots, when opening (time, ticket) pairs are distinct |
| `Sessions.HistoryRepeats` | dashboard/src/lib/neotech-public-engine.ts:83-179 | For the history made of deals that are distinct in time and ticket those pairs are distinct, so the identity holds without further assumption |
| `RuleMeaning.ShortHoldFailsIff` | dashboard/src/lib/neotech-public-engine.ts:303-313 | In terms of the deals: an episode violates the holding rule if and only if it is closed, its last deal came less than fifteen minutes after its first, none of its deals shows a stop or target more than thirty pips away, and all have complete evidence |
| `Sessions.AssessRisk` | dashboard/src/lib/neotech-public-engine.ts:484-497 | Each of the four overall verdicts, and each risk, comes exactly under its condition on the other rules, the repeats, the short holds, the sessions, the history and the horizon; risk YES forces a VIOLATION |
| `Drawdown.Fdd` | dashboard/src/lib/neotech-public-engine.ts:385-406 | The one-pass scan reports the largest fall below the running peak, which some pair attains and, for non-negative equities, no pair exceeds; the last sample with the largest floating loss; and FAIL exactly when some floating loss reaches two percent |
| `RuleMeaning.FddSays` | dashboard/src/lib/neotech-public-engine.ts:385-406 | The report fails if and only if the equity of some sample lies two percent or more below its balance; otherwise it needs two samples and passes when they span a year; the loss reported is the largest and is dated by a sample that shows it |
| `Drawdown.PairExceedsPeakIff` | dashboard/src/lib/neotech-public-engine.ts:394-397 | A pair falls by more than the scan counts for its last sample if and only if that sample has negative equity and the pair starts at a positive equity below the peak |
| `Drawdown.ScanIsExactIff` | dashboard/src/lib/neotech-public-engine.ts:385-403 | The reported drawdown bounds the falls of all pairs if and only if no sample of negative equity lies further below the least positive equity before it than what is reported |
| `Drawdown.NegativeEquityHidesFall` | dashboard/src/lib/neotech-public-engine.ts:394-397 | On equities 100, 200, -100 the scan reports 150 percent while the first and last sample are 200 percent apart |
| `IntentProtocol.EntersAtMostOnce` | dashboard/src/lib/telegram-cloud-store.ts:235-286 | In every run of interleaved workers, operators, expiries and crashes an intent enters execution at most once, provided executing writes still hold their lock and operator writes, stale or not, store no open status over an entered intent |
| `IntentRaces.ExecutionAfterWriteIff` | dashboard/src/lib/telegram-cloud-store.ts:151-233 | Over every run that can follow, an intent can be executed (again) after an operator write if and only if the write stores an open status, some worker has loaded the task, or another operator is about to write an open status |
| `IntentRaces.SecondExecutionAfterEnterIff` | dashboard/src/lib/telegram-cloud-store.ts:235-252 | Over every run that can follow, an executing write, with or without the lock, is or leads to a second execution if and only if the intent was entered before, another worker has loaded it, or an operator is about to write an open status |
| `IntentRaces.CanStillEnterIff` | dashboard/src/lib/telegram-cloud-store.ts:151-286 | In every state a run can reach, unfenced, some run, timely or not, can still execute a stored intent if and only if its task is open, some worker stands between reading it and writing executing, or some operator is about to write an open status |
| `IntentProtocol.PostClaimAbsorbing` | dashboard/src/lib/telegram-cloud-store.ts:225-286 | Once entered, an intent keeps a post-claim status for the rest of a timely run |
| `IntentProtocol.WriteKeepsResultsIff` | dashboard/src/lib/telegram-cloud-store.ts:225-234 | An operator write, stale or not, leaves every entered intent with a post-claim status if and only if what it stores over an entered intent is one |
| `IntentApprovals.NothingEntersUnapproved` | dashboard/src/lib/telegram-cloud-domain.ts:44-54 | In every run, timely or not, whatever enters execution was approved by an operator before, or was created from Telegram with a due time in the future |
| `IntentApprovals.EntersInItsWindow` | dashboard/src/lib/telegram-cloud-domain.ts:44-79 | In every run nothing enters before its due time, and what was read as scheduled only within two minutes of it by the claimant's clock |
| `IntentApprovals.UnapprovedRunsIff` | dashboard/src/lib/telegram-cloud-domain.ts:44-73 | A fresh intent that nobody approves can be run by a claim if and only if it came from Telegram with a future due time and the claim falls into the two minutes from it |
| `IntentApprovals.ApprovedRunsIff` | dashboard/src/lib/telegram-cloud-domain.ts:48-73 | An approved intent can be run by a claim if and only if no due time lay ahead of the approval, or the claim falls into the two minutes from it |
| `IntentApprovals.StaleMarksAreLate` | dashboard/src/lib/telegram-cloud-domain.ts:60-66 | In every run an execution is marked stale only by a clock more than ten minutes past the clock reading of a claim that started it |
| `IntentRaces.ResultKeptIff` | dashboard/src/lib/telegram-cloud-store.ts:151-286 | In every safe run the outcome a worker wrote is the task's status at all later points if and only if no later operator write stores another status over it |
| `IntentStore.StaleMarkOverwritesResult` | dashboard/src/lib/telegram-cloud-store.ts:197-213 | A safe run in which the tick reads a task as stale, the worker reports executed, and the tick then stores uncertain over it |
| `IntentProtocol.LockStaysWithItsOwner` | dashboard/src/lib/redis-core.ts:178-194 | Over any run, timely or not, a lock granted to a worker keeps that worker's token, which no other worker has, until the key expires or that worker unlocks |
| `IntentRaces.CancelIsFinalIff` | dashboard/src/lib/telegram-cloud-store.ts:151-158 | At any point of any run, cancelling or expiring an intent is final over all runs that can follow if and only if no worker stands between reading it and writing executing, with or without the lock, and no operator is about to write an open status over it |
| `IntentProtocol.TimelyCancelIsFinalIff` | dashboard/src/lib/telegram-cloud-store.ts:151-158 | If all writes to come are timely, that is so if and only if no worker that holds the lock stands between reading and writing |
| `IntentStore.Store.ClaimCloudIntentExecution` | dashboard/src/lib/telegram-cloud-store.ts:235-252 | Uninterrupted, a claim succeeds exactly for an executable task with a free lock, writes executing under a new token, and otherwise changes nothing |
| `IntentStore.Store.RunCloudIntentExecution` | dashboard/src/lib/telegram-cloud-runner.ts:8-36 | A run executes exactly when it is not fenced, the lock is free and the task executable; it records the outcome and leaves all lock keys as they were |
| `IntentStore.StaleApprovalExecutesTwice` | dashboard/src/lib/telegram-cloud-store.ts:225-233 | An approval read before another one took effect, but written after the intent was executed, makes it execute twice |
| `IntentStore.ExpiredLockExecutesTwice` | dashboard/src/lib/telegram-cloud-store.ts:235-252 | A lock that expires between read and executing write lets a second worker execute the intent |
| `IntentStore.CancelledIntentIsExecuted` | dashboard/src/lib/telegram-cloud-store.ts:151-158 | A cancellation that succeeds between a worker's read and its write does not stop the execution |
| `IntentStore.StaleApprovalRevivesCancelled` | dashboard/src/lib/telegram-cloud-store.ts:151-233 | An approval read before a cancellation and written after it executes the cancelled intent, although its lock key was absent and no claim was pending |
| `DueTime.ResolveVietnamDueAt` | dashboard/src/lib/telegram-cloud-domain.ts:106-148 | It fails exactly on an invalid time text or a date text that is not four, two and two digits; the instant shows the given wall clock in Vietnam; without a date it is the only such instant of the next 24 hours; with one it falls on the date spelled if and only if that is a calendar date with a year from 100 on |
| `Calendar.EarlierIsSmaller` | dashboard/src/lib/telegram-cloud-domain.ts:141 | Day numbers follow the calendar through leap years and centuries, so no two dates share one |
| `Calendar.OverlongDayRollsOver` | dashboard/src/lib/telegram-cloud-domain.ts:136-141 | A day past the end of its month is taken for a day of the next month |
| `KeyShapes.CalendarCounts` | dashboard/src/lib/telegram-cloud-domain.ts:136-141 | Days are numbered from 1 January 1970, one by one through months of the lengths the calendar has; days and months beyond their range run on |
| `DueTime.BothSpellingsAgree` | dashboard/src/lib/telegram-cloud-domain.ts:110-124 | The 9h05m30 spelling and the colon spelling denote the same time |
| `DueShapes.TimeIff` | dashboard/src/lib/telegram-cloud-domain.ts:110-124 | A text means a time of day if and only if, trimmed, it is one or two figures, a separator, two figures and perhaps a separator and two more, with colons or with h and m, and within the day |
| `ManagerDomain.PartialCloseFits` | dashboard/src/lib/ctrader-manager-domain.ts:109-127 | A positive partial close is a multiple of the step, at least the minimum, and leaves at least the minimum open |
| `ManagerDomain.PartialCloseIsLargest` | dashboard/src/lib/ctrader-manager-domain.ts:109-127 | It is the largest such volume not above the requested share |
| `ManagerDomain.RequestedIsNearest` | dashboard/src/lib/ctrader-manager-domain.ts:109-127 | The requested share is the multiple of the step nearest to the exact percentage |
| `ManagerDomain.HalfStepToleranceIsExact` | dashboard/src/lib/ctrader-account-manager.ts:226-230 | For step-aligned volumes the reconcile test holds if and only if the requested amount is gone |
| `ManagerDomain.LotsMapIff` | dashboard/src/lib/ctrader-execution-domain.ts:8-16 | A lot size maps to a volume if and only if that volume is what it means within one millionth, inside the limits and on the step |
| `MutationLedger.BrokerCalledAtMostOnce` | dashboard/src/lib/ctrader-account-manager.ts:179-244 | Over any history of guarded mutations, crashes and outcomes, no key is sent to the broker twice, and every call was preceded by a stored running entry |
| `MutationLedger.LedgerMovesForward` | dashboard/src/lib/ctrader-account-manager.ts:166-244 | From one guarded mutation to the next a key's status only moves from absent to running, uncertain and done, and calls are never forgotten |
| `MutationLedger.FirstDecides` | dashboard/src/lib/ctrader-account-manager.ts:179-244 | In every history a key has an entry if and only if some mutation of it left one, and the broker has got for it exactly the call of the first that did, with its volume, prices and fate; whatever came later sent nothing |
| `MutationLedger.Ledger.GuardedClose` | dashboard/src/lib/ctrader-account-manager.ts:216-244 | The guarded close reconciles, refuses or calls as the ledger says, and reduces the local volume only after a confirmed call |
| `MutationLedger.Ledger.GuardedProtection` | dashboard/src/lib/ctrader-account-manager.ts:179-214 | The guarded protection change confirms what is already in place, refuses an unresolved key, and moves local prices only after a confirmed call |
| `PositionManager.Manager.ManagePosition` | dashboard/src/lib/ctrader-account-manager.ts:246-335 | The in-place cycle does what its stages say in order: attach, close at R, one partial level, the armed rule, break-even, with the state saved unless the process dies |
| `CycleMeaning.CycleIs` | dashboard/src/lib/ctrader-account-manager.ts:246-335 | Every cycle, told in orders: which stage orders what, at which price or for which volume, under which key, whether it is sent, what it does to position and ledger, and what is remembered of it |
| `CycleMeaning.MemorySays` | dashboard/src/lib/ctrader-account-manager.ts:124-165 | A position starts from its stored memory or from a fresh one, whose risk is the distance of its stop or else the default, and stores what the cycle ends with |
| `PositionLevels.CycleClosesRightShare` | dashboard/src/lib/ctrader-account-manager.ts:272-297 | Every level's call in a cycle closes the first reached, unmarked level, by the largest closable volume not above the step nearest to its own percentage of the original or the held volume |
| `PositionSafety.RunsStayOrderly` | dashboard/src/lib/ctrader-account-manager.ts:246-335 | Over any sequence of cycles whose calls confirm or have no effect, partial closes fit step and minimum and each R level and break-even are confirmed at most once |
| `PositionOutcomes.RunKeepsMinimumIff` | dashboard/src/lib/ctrader-account-manager.ts:246-335 | Over any run, for all outcomes and crashes, a position that starts at the minimum or above and that close-at-R spares stays there if and only if in no cycle the rule closes more than the broker still holds above the minimum |
| `PositionOutcomes.CycleKeepsMinimumIff` | dashboard/src/lib/ctrader-account-manager.ts:272-315 | In one cycle that happens only after a partial close that took effect but threw |
| `PositionOutcomes.RunKeepsMinimum` | dashboard/src/lib/ctrader-account-manager.ts:246-335 | Without such a close the minimum is kept over every run, whatever else fails |
| `PositionOutcomes.LevelClosedTwiceIff` | dashboard/src/lib/ctrader-account-manager.ts:272-297 | Over any run a level is closed more than once, with effect, if and only if at some turn it is due and let through but forgotten, and at a later turn it is due (reached, unmarked, of positive volume, with a key new to the ledger) and let through again |
| `PositionOutcomes.LosesMarkIff` | dashboard/src/lib/ctrader-account-manager.ts:285-335 | The mark is lost if and only if the close is not confirmed or the process dies later in the cycle or before the state is saved |
| `PositionOutcomes.LostMarkClosesLevelTwice` | dashboard/src/lib/ctrader-account-manager.ts:285-335 | A run in which a confirmed close of a level is repeated because the process died at the break-even stage |
| `PositionOutcomes.BreakEvenIsNeverSentAgain` | dashboard/src/lib/ctrader-account-manager.ts:317-333 | Once break-even is stored as done, no later cycle sends a break-even change, for all outcomes and crashes |
| `PositionOutcomes.CloseAtREmptiesIff` | dashboard/src/lib/ctrader-account-manager.ts:265-270 | A cycle in which close-at-R fires leaves nothing open if and only if the attachment did not crash, the key is new to the ledger and the call takes effect |
| `PositionOutcomes.CloseAtRStaysStuck` | dashboard/src/lib/ctrader-account-manager.ts:265-270 | A close at R that the ledger knows is not sent again: turns in which it fires leave the volume alone |
| `PositionSafety.StopsOnlyTighten` | dashboard/src/lib/ctrader-account-manager.ts:255-333 | Once the broker holds a positive stop, no sequence of cycles at any prices, crashes and outcomes moves a BUY stop down or a SELL stop up |
| `PositionSafety.BreakEvenRecordedMeansEven` | dashboard/src/lib/ctrader-account-manager.ts:317-331 | Recording break-even means the stop is at that price or better, unless the ledger had finished the same price before |
| `PositionSafety.LevelCallsBrokerIff` | dashboard/src/lib/ctrader-account-manager.ts:285-297 | A level's broker call is made if and only if its volume is positive and this (level, volume) pair has no ledger entry |
| `PositionSafety.AmbiguousOutcomeEmptiesPosition` | dashboard/src/lib/ctrader-account-manager.ts:272-315 | After such a call the armed rule can close the rest of the position |
| `Pagination.UnescapeEscape` | dashboard/src/lib/neotech-compliance-domain.ts:373-375 | Reading the entities back restores the text |
| `Pagination.TakePrefixForEscapedLimit` | dashboard/src/lib/neotech-compliance-domain.ts:428-447 | The binary search returns the longest prefix that fits behind the header and fails exactly when not even one character does |
| `Pagination.PaginateNeoTechBlocksLossless` | dashboard/src/lib/neotech-compliance-domain.ts:449-475 | All pages are within the budget and render consecutive fragments that join block by block to the non-empty blocks in order, a page is closed only when what follows does not fit, and it fails exactly on an invalid budget or a character that cannot share a page with the header |
| `PageReading.PagesReadBack` | dashboard/src/lib/neotech-compliance-domain.ts:424-475 | Read back, every page is the header and its fragments behind empty lines, none has more UTF-16 units than the budget, and all fragments together are all blocks together |
| `Pagination.SevenUnitsSuffice` | dashboard/src/lib/neotech-compliance-domain.ts:449-475 | A header that leaves seven units never makes the pagination fail |
| `CanonicalJson.CanonicalIdentifies` | dashboard/src/lib/mt5-origin-domain.ts:104-109 | Canonical texts are equal if and only if the values are equal up to key order at every level |
| `JsonText.CanonicalWrites` | dashboard/src/lib/mt5-origin-domain.ts:104-109 | The printed text is canonical JSON of the value: members in ascending order of their keys by UTF-16 unit, each value in its place, strings with the shortest escapes |
| `Ordering.LessIsByUnits` | dashboard/src/lib/mt5-origin-domain.ts:108 | Keys are compared at the first UTF-16 unit in which they differ, and a proper prefix comes first |
| `CanonicalJson.SplitAt` | dashboard/src/lib/mt5-origin-domain.ts:104-109 | The text of a value ends where the value ends: what follows it cannot be confused with it |
| `CanonicalJson.UnquoteQuoted` | dashboard/src/lib/mt5-origin-domain.ts:105 | Resolving the escapes of section 7 of RFC 8259 in a quoted string gives the string back |
| `BrokerTask.TaskTextIdentifies` | dashboard/src/lib/mt5-origin-domain.ts:111-139 | Two complete tasks have equal text before hashing if and only if they agree on every normalised field except the routing member legacyProfile |
| `TaskFields.IdentifiedIff` | dashboard/src/lib/mt5-origin-domain.ts:34-139 | A task is identified if and only if its account is an MT5 account, its fields are complete, and its origin is valid and names that account |
| `TaskFields.TaskTextShows` | dashboard/src/lib/mt5-origin-domain.ts:111-139 | The text before hashing is canonical JSON of exactly eight fields, each with the task's own trimmed or normalised value |
| `OriginKeys.TelegramParseIffPrint` | dashboard/src/lib/mt5-origin-domain.ts:34-47 | The parser accepts a text as an origin if and only if the origin is valid and the trimmed text is its key |
| `OriginKeys.RollParseIffPrint` | dashboard/src/lib/mt5-origin-domain.ts:70-81 | The roll parser accepts a text as an origin if and only if the origin is valid and the trimmed text is its key |
| `OriginKeys.HourFourteenIsRefused` | dashboard/src/lib/mt5-origin-domain.ts:57-81 | The pattern lists hour 14, but no key with hour 14 is accepted |
| `OriginKeys.LedgerTextNamesOneOrigin` | dashboard/src/lib/mt5-origin-domain.ts:96-102 | The text behind a broker ledger key is an origin's key if and only if the trimmed input is |
| `OriginKeys.OriginTextInjective` | dashboard/src/lib/mt5-origin-domain.ts:25-81 | Different valid origins, of one form or of two, never share a key |
| `KeyShapes.TelegramKeyShape` | dashboard/src/lib/mt5-origin-domain.ts:19-32 | A Telegram key is given exactly to an MT5 account with an exactly representable positive update and non-negative index, and spells them |
| `KeyShapes.RollKeyShape` | dashboard/src/lib/mt5-origin-domain.ts:57-68 | An H1 key is given exactly to an MT5 account, a calendar date from year 100 on, hour 3, 6, 9 or 12 and a symbol, and spells them |
| `KeyShapes.AccountShape` | dashboard/src/lib/telegram-cloud-domain.ts:34-42 | An MT5 account is "mt5:" and eight to eighty letters, digits, underscores or hyphens |
| `FailoverProtocol.RepliesOfOneStore` | dashboard/src/lib/redis-core.ts:39-83 | In every run where overlapping calls on one key only read, a process routes by its own flag only after the marker is written and no flag runs out between the two clock readings of a call, each finished call returned the reply of one single store, even when the primary failed after applying the command |
| `FailoverLimits.OverlapRepliesIff` | dashboard/src/lib/redis-core.ts:59-83 | Two overlapping calls on one key, both sent to the primary, are answered like one store in every interleaving and under every failure if and only if neither reply depends on whether the other command was executed |
| `FailoverLimits.OverlapStoresIff` | dashboard/src/lib/redis-core.ts:59-83 | When both have finished, the backup holds the single store's value in every such run if and only if the two commands commute |
| `FailoverLimits.UnwrittenMarkerIff` | dashboard/src/lib/redis-core.ts:49-62 | A call routed by the process' own flag before the marker is written is answered rightly; the primary still agrees afterwards if and only if the command left the value alone, and a later call that reaches the primary is answered rightly if and only if its reply does not depend on the first command |
| `FailoverProtocol.ReachesDemotedPrimaryIff` | dashboard/src/lib/redis-core.ts:59-62 | With the marker set, a call is sent to the demoted primary if and only if the local flag is up at the first reading of the clock and down at the second |
| `FailoverLimits.RunOutFlagReplyIff` | dashboard/src/lib/redis-core.ts:59-62 | Such a call is answered rightly if and only if the primary's value gives the reply the single store's gives |
| `FailoverLimits.RunOutFlagHarmsOneReply` | dashboard/src/lib/redis-core.ts:59-83 | The harm is confined to that reply: in every disciplined run that follows, all other calls return the replies of one single store |
| `FailoverLimits.RunOutFlagBothWin` | dashboard/src/lib/redis-core.ts:59-62 | A run in which, through such a call, two calls on one lock that do not overlap both win it although the marker is set |
| `FailoverProtocol.DecidedOnce` | dashboard/src/lib/redis-core.ts:59-83 | Each call is executed against that single store once when its reply is decided, and otherwise never |
| `FailoverLimits.OverlappingCallsBothWin` | dashboard/src/lib/redis-core.ts:59-83 | When calls on one key overlap and one fails over, both can win the same set-if-absent lock |
| `FailoverLimits.UnwrittenMarkerBothWin` | dashboard/src/lib/redis-core.ts:49-62 | A process that uses its own flag before the shared marker is written lets two calls win the same lock one after the other |
| `RedisClient.Client.CallRedis` | dashboard/src/lib/redis-core.ts:59-83 | One call, in place: unless the flag runs out between the two readings, reply and change are those of one store |
| `RedisClient.CalledLikeOneStore` | dashboard/src/lib/redis-core.ts:59-83 | For such a call an error is thrown exactly when the primary refuses and no marker is set, and then nothing has changed; every other call replies and changes what one store would |
| `FailoverCalls.CallLeaves` | dashboard/src/lib/redis-core.ts:49-83 | What one call leaves behind, on either side and in every weather: reply, values, marker and flag, with the cooldown of ten minutes |
| `FailoverCalls.CodeIsARun` | dashboard/src/lib/redis-core.ts:59-83 | From every state, a call of the code is a run of the protocol with the same answer, databases, marker and flag, and a disciplined one if nobody disturbs it |
| `RedisClient.RunOutReplyIff` | dashboard/src/lib/redis-core.ts:59-83 | A call whose flag runs out replies rightly if and only if the demoted primary would reply as the backup does |
| `RedisClient.ServedLikeOneStore` | dashboard/src/lib/redis-core.ts:59-91 | Any number of processes calling in turn get exactly the replies of one store, as long as no flag runs out between the readings of a call |
| `RedisClient.RetryAloneIff` | dashboard/src/lib/redis-core.ts:59-83 | Without a backup, repeating a thrown call gives reply and content of a first execution if and only if the call had no effect or the command does the same the second time |
| `RedisClient.ServeInTurn` | dashboard/src/lib/redis-core.ts:59-91 | The processes' own calls, in place and in turn, are the calls on values the results above speak of |
| `RedisSync.Synchroniser.SyncRedisBackup` | dashboard/src/lib/redis-core.ts:118-176 | The scan loop copies every scanned key that can be copied, leaves all others, counts them, and is blocked once the backup was promoted |
| `RedisSync.SyncSays` | dashboard/src/lib/redis-core.ts:118-176 | The report counts each scanned key as often as it was scanned, as copied when the primary holds something under it, and exactly those keys hold the primary's value afterwards |
| `RedisSync.SyncMakesCoherentIff` | dashboard/src/lib/redis-core.ts:152-176 | After a full scan the stores agree if and only if, wherever the primary holds nothing that can be copied, the backup already held the same |
| `BridgeProtocol.CancelledNeverRuns` | dashboard/src/lib/mt5-bridge.ts:173-207 | A task reported cancelled was never run and never will be, under every interleaving of callers and executors |
| `BridgeProtocol.OnlyTheWinnerRuns` | dashboard/src/lib/mt5-bridge.ts:115-207 | Every execution in any run is one of the stored task, by the one executor the arbiter names |
| `BridgeProtocol.NothingRunsAfterAWaitersClaim` | dashboard/src/lib/mt5-bridge.ts:182-207 | Once any caller holds the arbiter key, the task was never run and never will be |
| `BridgeProtocol.OneRunIfNobodyRunsTwice` | dashboard/src/lib/mt5-bridge.ts:115-207 | If no executor runs the task twice, it is run at most once, however many executors there are |
| `BridgeProtocol.FinishedIsRun` | dashboard/src/lib/mt5-bridge.ts:173-207 | If executors write finished only after running, whatever is stored or reported as finished has been run |
| `BridgeProtocol.NeverReusedForAnother` | dashboard/src/lib/mt5-bridge.ts:160-170 | Whoever asked for an identity is refused exactly when another one is stored, and otherwise works on the stored task of that identity |
| `BridgeProtocol.LoserIsToldUncertain` | dashboard/src/lib/mt5-bridge.ts:182-207 | A caller whose cancellation comes second is told uncertain for good although the task was not run and never will be |
| `BridgeDelivery.DeliveriesWerePushed` | dashboard/src/lib/mt5-bridge.ts:115-171 | In every run each delivery was pushed before, and what was pushed is delivered, waits, or was cleared away |
| `BridgeDelivery.TaskIsDelivered` | dashboard/src/lib/mt5-bridge.ts:115-207 | Undisturbed, a task is queued once, run once by the executor that takes it, and its result is what the caller reports |
| `BridgeStore.Bridge.EnqueueTask` | dashboard/src/lib/mt5-bridge.ts:115-171 | Uninterrupted, a caller is refused exactly on another identity; otherwise the task is stored and queued once if it is pending and nobody holds the arbiter |
| `BridgeStore.Bridge.WaitForTask` | dashboard/src/lib/mt5-bridge.ts:173-207 | The polling loop, with any steps of others in between, ends with a final result of the caller's own task; cancelled implies never run, finished that an executor won the arbiter |
| `BridgeStore.Bridge.GiveUp` | dashboard/src/lib/mt5-bridge.ts:182-207 | At the deadline the caller wins the arbiter and cancels a pending task, or reports uncertain |
| `AutoBindRegistry.Registry.SyncAutoBind` | dashboard/src/lib/provider-accounts.ts:158-182 | After the index update the login index is what the table defines for every login, and the exact index has lost the old key and gained the new one |
| `AutoBindRegistry.Registry.CreateAccount` | dashboard/src/lib/provider-accounts.ts:271-289 | Creating is refused exactly when login, broker in any case and environment are registered or the label is taken; otherwise it adds a disabled account and keeps both indexes right |
| `AutoBindRegistry.Registry.UpdateAccount` | dashboard/src/lib/provider-accounts.ts:291-323 | An update changes exactly the patched fields, and is refused, with the first reason that applies, exactly when account, label, profile or login and server forbid it; both indexes stay right |
| `AutoBindRegistry.Registry.Reconcile` | dashboard/src/lib/provider-accounts.ts:184-210 | Reconciling fills in exactly the missing servers that live bridges name, makes every confirmed account findable, never loses completeness, and counts and lists exactly the accounts of each outcome |
| `AutoBindRegistry.Registry.SyncLocalRow` | dashboard/src/lib/provider-accounts.ts:87-156 | A usable row goes to the first listed account it names by id, profile or login and server, which takes exactly four fields from it, or to a new account when it names none; both indexes stay right |
| `AutoBind.ExactStaysSound` | dashboard/src/lib/provider-accounts.ts:167-182 | Changing one row keeps every exact entry pointing at an active account with that login, server and profile |
| `AutoBind.CompletenessKeptIff` | dashboard/src/lib/provider-accounts.ts:167-182 | A change keeps every active account with a server findable if and only if it orphans no twin that shares the deleted key |
| `AutoBind.RelabellingATwinOrphans` | dashboard/src/lib/provider-accounts.ts:167-170 | Relabelling a disabled twin deletes the exact entry of an enabled account |

## Left out

- User interface, routes, OAuth, vault encryption, broker transport, fact-check and media services.
- `Sessions.SessionAt` takes the season of a server day as a parameter instead of reading a calendar.
- Field-by-field validation of payloads, reason flags of deals, and the evidence texts for hedging and averaging.
- Rule titles, coverage percentages and the qualification horizon: `Sessions.AssessRisk` takes the statuses of the other
  rules, completeness and horizon as inputs.
- Floating-point rounding: money, prices, volumes of deals and R are exact reals.
- Locale order of tickets: they are compared by UTF-16 unit.
- Key lifetimes other than the expiry of the execution lock; in particular the bridge's task and arbiter keys do not expire,
  and the 55-second account lock of the cTrader manager is represented by runs that do not overlap.
- De-duplication of intents on creation, lot normalisation, audit entries, and task fields other than status, due time and
  start time.
- SHA-256 and its truncation: digests and hashed keys are represented by the text that is hashed.
- Unpaired surrogates in strings, and JSON values other than null, booleans, finite numbers, strings, arrays and objects;
  a number is represented by the text JavaScript prints for it.
- `OriginKeys.RollKey` and `BrokerTask.TaskText` take the case mappings of JavaScript strings as parameters.
- Truncation of profile and server names to 120 characters when a stored account is read; `AutoBind.Account` holds the
  normalised server identity, and random account ids are assumed to be new.
- The default account, labels of cTrader accounts (whether a label is free is an input), points and time stamps of accounts.
- Commands on several keys, transactions, and a backup or marker write that fails; `RedisClient.Client.CallRedis` covers
  failures of the primary only.
- Lifetimes of copied keys and writes that run while the backup is synchronised.
- Clock readings in years 0 to 99, which `DueTime.ResolveVietnamDueAt` without a date text treats like any others.
- The text shown for a due time and the chunking of Telegram messages.
- Operation timeouts and heartbeats of the bridge, result payloads, and the queue's order.
- BridgeStore.Bridge.WaitForTask: a finished result means that an executor won the arbiter; that it ran first is an
  assumption on executors, see `BridgeProtocol.FinishedIsRun`.
- MutationLedger.LedgerMovesForward: speaks of the ledger between mutations. A `done` write that takes effect and still
  rejects is followed by an `uncertain` write within the same mutation; the model shows its end, which is that of a call
  that took effect but threw. A second write that fails as well, and a process that dies while it reconciles a key it
  has met before, are not modelled.
- PositionSafety.RunsStayOrderly: confirms each level and break-even at most once for honest outcomes only; for all outcomes
  see `PositionOutcomes.LevelClosedTwiceIff` and `PositionOutcomes.BreakEvenIsNeverSentAgain`.
- Throws on invalid digits in `ManagerDomain`: the point size is an input.
