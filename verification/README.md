# Billing observability: a verified model

This project models the calculation and the protocols behind a month's bill, and proves what the
system promises about them. Traces of language-model agents arrive with immutable price stamps; a
statement engine folds the stamps of a month into a bill; months close into versioned snapshots,
reopen and close again; a watermark loop ingests the traces; a sweep stamps late prices; a calendar
decides which month an instant belongs to; a signed confirmation guards the operator's doors.

Money is integer micro-centavos throughout. Instants are integer milliseconds. A value the source
rejects is an `Err` or a `None` of the model, never a precondition.

## How it is organised

| files | what they hold |
|---|---|
| `Wrappers`, `Sums`, `Sorting`, `Decimals`, `Keyset` | shared vocabulary: options, sums and their rearrangements, sorting by a total order and largest first, decimal numerals, the (instant, trace id) cursor |
| `LargestRemainder`, `Money` | exact rounding, displayed cents, the BRL printer and parser |
| `StatementModel`, `StatementSpec`, `StatementTheorems`, `StatementRows`, `CacheTheorems` | the statement as a function of the records, what is true of it as a whole, what each of its rows shows, and what its cache savings mean |
| `StatementEngine`, `StatementFold` | the engine's loops and its mutable fold, proved to compute that function |
| `ClosePages`, `StatementViews`, `GroupingKeys` | the day-paged close, the readers of a statement, the text keys of the engine's maps |
| `Lifecycle`, `LifecycleTheorems`, `LifecycleStores` | the month's lifecycle as a transition system, its theorems, and the stores as classes |
| `Lanes`, `SyncCursor`, `Prices`, `PriceCache`, `BatchLookups`, `Stamping`, `PendingSweep`, `SweepArrivals` | continuous ingestion, the price lookup and its cache, stamps through both, the pending sweep and what arrives during it |
| `ClientCalendar`, `Periods`, `AutoClose`, `StoredTraces`, `BillList`, `BillPages` | month windows, live-scan bound and close order, the auto-close walk, what a stored trace says of itself, the bill list and what it says beside the months' pages |
| `Confirmation`, `CanonicalJson` | confirmation payloads and tokens, canonical JSON |

A loop or an object of the source is a method or a class here, proved against a function of its
inputs or of its old state; the theorems are lemmas about that function. A protocol whose steps
interleave is a transition system: a step function, an invariant every step keeps, and theorems over
runs of any length.

## What came out of it

Five promises hold only under a condition the source does not check. Each has a failing run or input
and the exact condition.

- A price registered during a batch can be missed by the rest of it (`PriceCache.RegisteredMidBatch`),
  or applied to traces dated before it takes effect (`PriceCache.ServedTooEarly`). The answers of an
  interval, whichever of its dates filled the entry and however the table has grown before or since, are
  the direct lookup's if and only if, in the table the entry was read from, every version that shows in
  the interval had its date read, and no version registered since is in force and seen there
  (`PriceCache.ServedRightIff`). Stamps inherit the first half: a run of ingestion stores a stamp that no
  table that ever existed gives for the trace (`Stamping.StampedTooEarly`), and ingesting through an
  entry is ingesting from the table it was filled from, for all dates of the interval and all usage, if
  and only if every version that shows there had its date read (`Stamping.IngestRightIff`). Without a
  registration between the two reads that always holds.
- A worker whose clock runs ahead of the source by more than the quiet period passes rows that are
  still being written. Runs whose ceilings lie at most a given margin past the source's clock lose
  nothing if and only if the margin is not positive (`SyncCursor.SafeExactlyWithoutMargin`).
- A delayed reconciliation of an older snapshot version, run after a newer close, flags traces the
  newer version billed (`LifecycleTheorems.WrongOrderFlagsABilledTrace`). It is harmless exactly when
  every trace billed since already carries a quarantine mark, and re-running the current version heals it.
- The month window and the client calendar can disagree. The comment at client-clock.ts:95-100 counts on
  transitions never sitting on a month boundary; in real zones some have. They agree on a month exactly
  when the two-pass correction lands on the first midnight of the month and of the next
  (`ClientCalendar.MonthMembershipIff`), which with one transition near either midnight means exactly
  when both transitions are harmless (`ClientCalendar.MonthMembershipAtChanges`). Harmful
  are a clock set back across midnight, one set back to midnight at or east of Greenwich, one set
  forward across midnight, and one set forward from midnight west of Greenwich; harmless is, for
  instance, one set back from midnight.
- For that reason the live-scan bound can hide a trace of a month that is not closed, and the close-order
  guard can pass over one (`Periods.RepeatedHourIsHidden`). Over all lifecycle histories neither ever
  happens if and only if the calendar month of the earliest stored trace is no later than the month in
  whose window it lies (`Periods.BoundHidesNothingIff`, `Periods.GuardSoundIff`). The bill list, which
  groups by calendar month, then shows the trace in a month whose page does not, or fails on a reopened
  month; over all stores holding traces at given instants list and pages agree if and only if every one
  of them lies in the window of its calendar month (`BillPages.ListAgreesIff`).

And one behaviour is not a copy where a reader might expect one: the line objects a statement returns
are the fold's own, so an earlier result's lines change when the fold goes on
(`StatementFolding.EarlierLinesFollow`).

## Assumptions

- A month's traces keep their start date, and a stamped trace keeps its stamp; ingestion decides
  quarantine and inserts in two steps, so a straggler may land unflagged until the next reconciliation.
- Source rows are written at or after the source's current time, and a fetch returns the first rows
  past the cursor in (updatedAt, traceId) order.
- An offset is any value the code can read from a zone's text, at most 99 hours and 99 minutes either way.
- The order guard's meaning and the live-scan bound assume of the earliest stored trace that its calendar
  month is no later than its window's (`Periods.Fits`); that the bill list says what the pages say assumes
  that each stored trace lies in the window of its own calendar month (`ClientCalendar.Agrees`). Both are
  tests on the traces themselves. What the list computes, that month starts increase, that windows tile
  time and that the auto-close walk never trips the guard need no assumption about transitions.
- Token counts are never negative, as the source's schema requires of every trace; the price table holds
  one version per model, token type and date, as its unique index requires, with prices as the price
  parser gives them.
- A period document exists only for a month that has begun, as the close guard ensures.

## Model

| member | source | states |
|---|---|---|
| `LargestRemainder.AllocationUnique` | packages/core/src/common/helpers/money/money.ts:131-153 | the largest-remainder conditions (floors or floors plus one, exactly `deficit` raised, raised parts dominate by remainder then index) admit one allocation only |
| `LargestRemainder.AllocationCloses` | packages/core/src/common/helpers/money/money.ts:124-156 | the allocation computed by sorting meets those conditions, closes with its target and raises only parts with a non-zero remainder |
| `LargestRemainder.RaiseLargest` | packages/module/src/application/useCases/billingStatement/statement-engine.ts:96-114 | the in-place raising loop, early exit included, computes that allocation |
| `Money.CostMicrocents` | packages/core/src/common/helpers/money/money.ts:76-86 | the nearest micro-centavo, ties upwards, within half a micro-centavo of tokens times price; exactly which inputs are errors |
| `Money.SumMicrocents` | packages/core/src/common/helpers/money/money.ts:89-98 | the checked sum: an error for an unsafe term or an unsafe total, else the exact sum |
| `Money.ReconcileDisplayCents` | packages/core/src/common/helpers/money/money.ts:124-156 | the loop returns the displayed total and the specified displayed parts, or the sum's error |
| `Money.DisplayCloses` | packages/core/src/common/helpers/money/money.ts:119-156 | displayed parts sum to the half-up total, each is its floor or floor plus one, and they are the largest-remainder allocation |
| `Money.ParseReads` | packages/core/src/common/helpers/money/money.ts:54-70 | digits, or digits, a dot and one to eight digits, read as their value in micro-centavos, refused only beyond the safe range |
| `Money.ParseRefuses` | packages/core/src/common/helpers/money/money.ts:54-62 | whatever is not spelled so is refused as not an amount, and nothing else is |
| `Money.TrimIs` | packages/core/src/common/helpers/money/money.ts:55 | trimming takes all white space off both ends and nothing else |
| `Money.ParseOfPrint` | packages/core/src/common/helpers/money/money.ts:54-177 | parsing a printed amount gives it back, for every safe non-negative amount, and the print is canonical |
| `Money.PrintOfParse` | packages/core/src/common/helpers/money/money.ts:54-177 | an accepted text is its own printed form if and only if it is the canonical spelling with 2 to 8 fraction digits |
| `Money.FloatTruncationIsExact` | packages/core/src/common/helpers/money/money.ts:172 | the float division and truncation of the printer give the integer quotient on every safe amount |
| `StatementModel.TextLessIsUnitOrder` | packages/module/src/application/useCases/billingStatement/statement-engine.ts:48-54 | the text order of the comparators is the order of the UTF-16 code units, characters beyond U+FFFF included |
| `StatementModel.CompareLinesTotal` | packages/module/src/application/useCases/billingStatement/statement-engine.ts:69-76 | the line comparator is a strict total order in which only equal grouping keys tie |
| `StatementModel.ComparePriceVersionsTotal` | packages/module/src/application/useCases/billingStatement/statement-engine.ts:522-531 | so is the price version comparator |
| `StatementRows.OrdersAre` | packages/module/src/application/useCases/billingStatement/statement-engine.ts:48-76 | lines and price versions are compared by their first differing field, in the order of the fields, null first |
| `StatementSpec.SharesClose` | packages/module/src/application/useCases/billingStatement/statement-engine.ts:87-115 | basis points sum to exactly `totalBp` unless every weight is zero |
| `StatementSpec.SharesAreLargestRemainder` | packages/module/src/application/useCases/billingStatement/statement-engine.ts:87-115 | they are the largest-remainder allocation over the exact scaled weights |
| `StatementEngine.ShareBasisPoints` | packages/module/src/application/useCases/billingStatement/statement-engine.ts:87-115 | the method computes the specified shares, the all-zero case included |
| `StatementEngine.BuildAgentGroups` | packages/module/src/application/useCases/billingStatement/statement-engine.ts:197-242 | the grouping loop gives one group per agent with the sums of that agent's lines, sorted, with shares |
| `StatementEngine.BuildModelShares` | packages/module/src/application/useCases/billingStatement/statement-engine.ts:244-292 | the grouping loop gives the specified model shares |
| `StatementEngine.BuildModelMixByAgent` | packages/module/src/application/useCases/billingStatement/statement-engine.ts:294-330 | one mix per agent over that agent's own lines, with the blended price |
| `StatementEngine.CacheSavingsFold.Add` | packages/module/src/application/useCases/billingStatement/statement-engine.ts:332-415 | one record into the cache counters and price buckets; refused only when a running sum leaves the safe range |
| `StatementEngine.CacheSavingsFold.Finish` | packages/module/src/application/useCases/billingStatement/statement-engine.ts:332-415 | the method gives the specified savings of the folded records, in whatever order the buckets were opened; `CacheTheorems.SavingsMeaning` says what those are |
| `StatementEngine.BucketOrderIrrelevant` | packages/module/src/application/useCases/billingStatement/statement-engine.ts:332-415 | pricing the buckets in any order gives the same counterfactual or the same refusal |
| `CacheTheorems.SavingsMeaning` | packages/module/src/application/useCases/billingStatement/statement-engine.ts:332-415 | over all records: a million times the counterfactual lies within 500000 per distinct input price of the cache-read tokens times the input price of their own trace, both taken from the stamps; savings are that less what the reads cost, net savings less what the writes cost; reads without an input price are counted apart |
| `CacheTheorems.CounterfactualIff` | packages/module/src/application/useCases/billingStatement/statement-engine.ts:366-398 | the savings exist exactly when each input price can cost its tokens and the costs sum to a safe amount, and the counterfactual is then that sum |
| `CacheTheorems.StatementIff` | packages/module/src/application/useCases/billingStatement/statement-engine.ts:475-519 | a month has a statement exactly when its total and that counterfactual are safe amounts, and the statement's cache savings mean what they say |
| `StatementFolding.StatementFold.Add` | packages/module/src/application/useCases/billingStatement/statement-engine.ts:468-473 | folding a record keeps the accumulator equal to the specification over the folded records; it fails only when the month's total leaves the safe range |
| `StatementFolding.StatementFold.Statement` | packages/module/src/application/useCases/billingStatement/statement-engine.ts:475-519 | despite the writes into the line objects, the statement read back is the specified one, the accumulator is unchanged, and the lines are the fold's own objects |
| `StatementFolding.StatementFold.AppliedPriceVersions` | packages/module/src/application/useCases/billingStatement/statement-engine.ts:417-446 | the distinct applied price versions in order |
| `StatementFolding.BuildStatement` | packages/module/src/application/useCases/billingStatement/statement-engine.ts:534-546 | the whole-month fold computes the specified statement |
| `StatementFolding.StatementTwice` | packages/module/src/application/useCases/billingStatement/statement-engine.ts:475-500 | calling `statement()` again gives the same value and leaves the first result reading the same |
| `StatementFolding.EarlierLinesFollow` | packages/module/src/application/useCases/billingStatement/statement-engine.ts:461-500 | after a later `add` and `statement()`, every line object handed out earlier is a line of the later result |
| `StatementFolding.CacheBelowTotal` | packages/module/src/application/useCases/billingStatement/statement-engine.ts:332-415 | the cache counters never exceed the month's total, so they never fail first |
| `StatementTheorems.StatementOrderIndependent` | packages/module/src/application/useCases/billingStatement/statement-engine.ts:56-76 | any permutation of the records gives the same statement: lines, order, displayed cents, agents, shares, savings, price versions |
| `StatementTheorems.LinesConserve` | packages/module/src/application/useCases/billingStatement/statement-engine.ts:490-493 | line costs and tokens sum to the folded stamps |
| `StatementTheorems.LineCentsClose` | packages/module/src/application/useCases/billingStatement/statement-engine.ts:495-500 | line cents close with the displayed total, the half-up rounding of the exact one |
| `StatementTheorems.AgentsConserve` | packages/module/src/application/useCases/billingStatement/statement-engine.ts:197-242 | agents' costs, tokens and cents sum to the lines', and their basis points to 10000 unless the month cost nothing |
| `StatementTheorems.AgentsAreGroups` | packages/module/src/application/useCases/billingStatement/statement-engine.ts:197-242 | every agent group holds exactly the sums and the type split of its agent's lines |
| `StatementTheorems.AgentsInOrder` | packages/module/src/application/useCases/billingStatement/statement-engine.ts:229-235 | groups stand in strict order and no agent has two |
| `StatementTheorems.EveryAgentGrouped` | packages/module/src/application/useCases/billingStatement/statement-engine.ts:200-215 | no agent is missing |
| `StatementTheorems.ModelsConserve` | packages/module/src/application/useCases/billingStatement/statement-engine.ts:244-292 | model costs and tokens sum to the lines', and both share columns to 10000 basis points |
| `StatementTheorems.MixesConserve` | packages/module/src/application/useCases/billingStatement/statement-engine.ts:294-318 | each agent's model mix closes with that agent's own cost and tokens |
| `StatementTheorems.StatementConserves` | packages/module/src/application/useCases/billingStatement/statement-engine.ts:485-519 | every month's statement holds exactly the month's stamps, and it closes (`ProjectCloses`) |
| `StatementTheorems.ProjectCloses` | packages/module/src/application/useCases/billingStatement/statement-engine.ts:485-519 | the value half closes: lines, agents and models add up to one total in exact cost, tokens, displayed cents and basis points, and no agent appears twice |
| `StatementTheorems.LinePriceBound` | packages/module/src/application/useCases/billingStatement/statement-engine.ts:154-185 | a line's cost is within half a micro-centavo per folded stamp of tokens times unit price |
| `StatementRows.StatementShows` | packages/module/src/application/useCases/billingStatement/statement-engine.ts:197-330 | every row of a statement, said of the records and stamps: exactly the lines, agents and models there are, each with the sums of its own stamps or lines, in order; cents, agent shares and both model shares apportioned row by row by largest remainder; each mix from its agent's own lines with the blended price rounded half up |
| `StatementRows.AppliedVersions` | packages/module/src/application/useCases/billingStatement/statement-engine.ts:417-446 | the applied price versions are those of the stamps, each once, in order |
| `GroupingKeys.LineKeysNeverCollide` | packages/module/src/application/useCases/billingStatement/statement-engine.ts:141-151 | two line key texts are equal exactly when all six grouping fields are |
| `GroupingKeys.AgentKeysNeverCollide` | packages/core/src/domain/models/billing-snapshot-model.ts:48-61 | two agent key texts are equal exactly when id and version are, whatever text they hold |
| `GroupingKeys.MonthKeysNeverCollide` | packages/core/src/domain/models/month-key.ts:18-19 | two month keys are equal exactly when year and month are |
| `ClosePages.UsagePageWindows` | packages/module/src/application/useCases/billingLifecycle/close-billing-period-db-use-case.ts:45-65 | the loop ends and cuts the month into consecutive days, the last clamped to the month's end |
| `ClosePages.TilesPartition` | packages/module/src/application/useCases/billingLifecycle/close-billing-period-db-use-case.ts:45-65 | an instant is in the month exactly when it is in some page, and pages do not overlap |
| `ClosePages.CloseMonth` | packages/module/src/application/useCases/billingLifecycle/close-billing-period-db-use-case.ts:197-278 | the day-paged fold publishes what a reader folding the whole month computes, stages every record once, and fails exactly when that reader does |
| `StatementViews.AgentModelDisplayCents` | packages/module/src/presentation/controllers/billing/billing-view-model.ts:320-345 | per-model cents of an agent are sums of its reconciled line cents |
| `StatementViews.AgentModelCentsClose` | packages/module/src/presentation/controllers/billing/billing-view-model.ts:320-345 | they close with the cents on that agent's own card, which `AgentsAreGroups` says are the agent's line cents |
| `StatementViews.AgentMixViews` | packages/module/src/presentation/controllers/billing/billing-view-model.ts:230-271 | versions of an agent merge into one slice, sorted by cost, with accumulated arcs |
| `StatementViews.SlicesShow` | packages/module/src/presentation/controllers/billing/billing-view-model.ts:230-271 | one slice per agent id with the sums of all its versions, costliest first, ties in order of appearance |
| `StatementViews.AgentDonutCloses` | packages/module/src/presentation/controllers/billing/billing-view-model.ts:230-271 | the merged slices of a statement that closes add up to the displayed total, the exact total and the full circle |
| `StatementViews.DonutCloses` | packages/module/src/presentation/controllers/billing/billing-view-model.ts:281-303 | a donut starts at zero, leaves no gap, never turns back and ends at the sum of its shares |
| `StatementViews.ModelDonutCloses` | packages/module/src/presentation/controllers/billing/billing-view-model.ts:311-318 | the model donut's reconciled cents close with the displayed statement total |
| `StatementViews.Comparison` | packages/module/src/application/useCases/billingSummary/get-billing-summary-db-use-case.ts:206-257 | one row per agent of either month, sorted by current cost |
| `StatementViews.ComparisonRows` | packages/module/src/application/useCases/billingSummary/get-billing-summary-db-use-case.ts:206-257 | exactly the agents of either month; each row shows what this month and what the other charges the agent, nothing where it is absent, and their difference; costliest now first, ties in order of appearance |
| `StatementViews.ComparisonCloses` | packages/module/src/application/useCases/billingSummary/get-billing-summary-db-use-case.ts:176-259 | between any two statements that close, the rows' deltas sum to the total delta |
| `StatementViews.SplitOfLines` | packages/module/src/application/useCases/billingSeries/get-billing-series-db-use-case.ts:27-50 | the in-place split has one row per token type, in order of first appearance, with that type's sum |
| `StatementViews.SplitModels` | packages/module/src/application/useCases/billingSeries/get-billing-series-db-use-case.ts:204-209 | the per-model splits are the splits of each model's own lines |
| `StatementViews.SeriesSplitsClose` | packages/module/src/application/useCases/billingSeries/get-billing-series-db-use-case.ts:167-227 | a closed month's splits close with its total and each model's cost, for every month's statement (`StatementConserves`) |
| `StatementViews.AgentTypesClose` | packages/module/src/application/useCases/billingStatement/statement-engine.ts:197-242 | an agent's cost record by token type sums to the agent's cost |
| `StatementViews.MergeVersions` | packages/module/src/application/useCases/billingSeries/get-billing-series-db-use-case.ts:180-220 | the in-place loop merges the versions of one agent id into one entry with their summed cost and, row by row, their cost records, costliest first, whatever order the records keep their keys in |
| `StatementViews.SeriesEntryShows` | packages/module/src/application/useCases/billingSeries/get-billing-series-db-use-case.ts:180-220 | a merged entry has one row per token type that some version has, with what all versions cost for it; entries stand costliest first, ties in order of appearance |
| `StatementViews.SeriesAgentsClose` | packages/module/src/application/useCases/billingSeries/get-billing-series-db-use-case.ts:180-220 | each merged entry's token-type rows sum to its cost, and the entries sum to the month's total |
| `Lifecycle.StepKeeps` | packages/module/src/application/useCases/billingLifecycle/close-billing-period-db-use-case.ts:125-314 | every step of ingest, stamp, close, crash, reopen and reconcile, however interleaved, keeps the lifecycle invariant |
| `Lifecycle.CommitPublishesNext` | packages/module/src/application/useCases/billingLifecycle/close-billing-period-db-use-case.ts:169-278 | a commit that goes through carries exactly the next version and bills everything any earlier version billed |
| `LifecycleTheorems.LifecycleHolds` | packages/core/src/application/testSupport/billing-test-fakes.ts:44-189 | at every moment of every run: audit alternates, the k-th close has version k, closed exactly when the last entry is a close, version is the highest header; stored snapshots never change |
| `LifecycleTheorems.TraceStory` | packages/core/src/application/interfaces/trace-repository.ts:100-190 | in every run a trace costs exactly what the step that brought or stamped it said, carries a mark exactly when some step marked it, and keeps its date |
| `LifecycleTheorems.StartTakesNext` | packages/module/src/application/useCases/billingLifecycle/close-billing-period-db-use-case.ts:169-183 | a close that begins to read takes a version past the one it saw and past every stored header, orphaned ones included; in a run it is the next one |
| `LifecycleTheorems.CommitGoesThroughIff` | packages/core/src/application/testSupport/billing-test-fakes.ts:147-189 | a stale or losing close changes nothing stored; it wins exactly when its version is still next and the month is open |
| `LifecycleTheorems.ReopenGoesThroughIff` | packages/core/src/application/testSupport/billing-test-fakes.ts:67-84 | a reopen goes through exactly when the month is closed, keeps its version and snapshots, and its audit entry names the version it looked at |
| `LifecycleTheorems.PendingRefusesCloses` | packages/module/src/application/useCases/billingLifecycle/close-billing-period-db-use-case.ts:148-165 | while some trace of the month is pending no close gets past its check, so in every run none but those already past it can publish |
| `LifecycleTheorems.PageReadIs` | packages/module/src/application/useCases/billingLifecycle/close-billing-period-db-use-case.ts:219-240 | reading a page bills that page's stamped traces at their stamp, quarantined or not, and no other |
| `LifecycleTheorems.CommitBillsTheMonth` | packages/module/src/application/useCases/billingLifecycle/close-billing-period-db-use-case.ts:219-240 | a close bills every trace stamped when it began to read, page by page, at its stamped cost, and nothing unstamped |
| `LifecycleTheorems.BilledNeverShrinks` | packages/module/src/application/useCases/billingLifecycle/close-billing-period-db-use-case.ts:169-278 | billed ids and total never shrink from one version to any later one |
| `LifecycleTheorems.ReconciliationAdjudicates` | packages/core/src/application/interfaces/trace-repository.ts:166-190 | after a completed reconciliation of the current version every trace stored at its first pass is billed without unresolved quarantine or unbilled with it |
| `LifecycleTheorems.RunsAdjudicate` | packages/module/src/application/useCases/billingLifecycle/close-billing-period-db-use-case.ts:280-302 | the same for every run that ends in such a reconciliation |
| `LifecycleTheorems.RepairUsesTheSnapshot` | packages/module/src/application/useCases/billingLifecycle/close-billing-period-db-use-case.ts:316-350 | the repair path reconciles the current version from the stored snapshot's own ids |
| `LifecycleTheorems.ReconcileConverges` | packages/core/src/application/interfaces/trace-repository.ts:166-190 | re-running after a crash between the passes, or after both, reaches the state of one uninterrupted run |
| `LifecycleTheorems.OlderReconciliationIff` | packages/core/src/application/interfaces/trace-repository.ts:166-190 | a delayed reconciliation of an older version keeps the month adjudicated exactly when every trace billed since is already marked |
| `LifecycleTheorems.CurrentReconciliationHeals` | packages/module/src/application/useCases/billingLifecycle/close-billing-period-db-use-case.ts:316-350 | re-running the current version's reconciliation restores adjudication whatever an older one did |
| `LifecycleTheorems.WrongOrderFlagsABilledTrace` | packages/core/src/application/interfaces/trace-repository.ts:166-190 | a concrete run in which a delayed version 1 reconciliation flags a trace version 2 billed |
| `LifecycleStores.BillingPeriodRepository.MarkClosed` | packages/core/src/application/testSupport/billing-test-fakes.ts:44-65 | flips and appends exactly when not closed, touches no other month |
| `LifecycleStores.BillingPeriodRepository.MarkReopened` | packages/core/src/application/testSupport/billing-test-fakes.ts:67-84 | reopens and appends exactly when closed, touches no other month |
| `LifecycleStores.BillingSnapshotRepository.InsertWithPeriodCloseStaged` | packages/core/src/application/testSupport/billing-test-fakes.ts:147-189 | header and flip become visible together or nothing changes, which is which, and no other month changes |
| `LifecycleStores.StagedIsBilled` | packages/core/src/application/testSupport/billing-test-fakes.ts:147-189 | a staged snapshot bills exactly the traces on its pages, each at the cost its page has |
| `LifecycleStores.BillingSnapshotRepository.FindCurrent` | packages/core/src/application/testSupport/billing-test-fakes.ts:208-217 | the highest stored version of the month |
| `LifecycleStores.BillingSnapshotRepository.UsageIdsAreBilled` | packages/core/src/application/testSupport/billing-test-fakes.ts:234-242 | the ids a repair reads are exactly the traces the snapshot bills |
| `Lanes.GroupLanes` | packages/connector/src/application/useCases/syncBatches/run-in-lanes.ts:24-37 | the grouping loop gives each key's items in input order, keys in order of first appearance |
| `Lanes.LanesPartition` | packages/connector/src/application/useCases/syncBatches/run-in-lanes.ts:24-37 | the lanes hold every item exactly as often as the input, and no lane is empty |
| `Lanes.SafeAtEveryMoment` | packages/connector/src/application/useCases/syncBatches/run-in-lanes.ts:38-62 | under every interleaving: at most `workers` in flight, never two of a lane, starts a prefix of the lane in order, nothing starts after the first error, which is the one kept |
| `Lanes.CompleteAtTheEnd` | packages/connector/src/application/useCases/syncBatches/run-in-lanes.ts:38-68 | when all workers have returned, every started item ended, and without an error every item was worked once and in order |
| `Lanes.RunsTerminate` | packages/connector/src/application/useCases/syncBatches/run-in-lanes.ts:42-62 | every schedule ends within a bound fixed by the input, and a run is stuck exactly when all workers have returned |
| `Lanes.WorkedItems` | packages/connector/src/application/useCases/syncBatches/run-in-lanes.ts:18-68 | no item is worked more often than it occurs, and exactly as often when nothing failed |
| `Lanes.AtMostConcurrency` | packages/connector/src/application/useCases/syncBatches/run-in-lanes.ts:39-40 | under every interleaving at most max(1, floor(concurrency)) items are in flight |
| `Lanes.ConcurrencyIsReached` | packages/connector/src/application/useCases/syncBatches/run-in-lanes.ts:38-62 | and the concurrency is used: some schedule has as many items in flight at once as it allows, or one of every lane |
| `Lanes.RunInLanes` | packages/connector/src/application/useCases/syncBatches/run-in-lanes.ts:18-68 | the whole call under any scheduler ends; its error is none exactly when every item's work succeeds and otherwise the error of some item, the first that failed; in its history each item ends as its own work did, none is lost or worked twice, and at every moment it keeps within the concurrency and a lane's order |
| `SyncCursor.StepKeeps` | packages/connector/src/application/useCases/syncBatches/sync-batches-db-use-case.ts:102-286 | every step of any number of drainers, the source and crashes keeps the cursor invariant |
| `SyncCursor.NoLossNoDoubleStore` | packages/connector/src/application/useCases/syncBatches/sync-batches-db-use-case.ts:102-286 | in every run, of every source row at or before the cursor the trace is stored or that very write of it is dead-lettered or recorded poison; a stored trace keeps its first stamp; the cursor moves only strictly upward |
| `SyncCursor.RunFiles` | packages/connector/src/application/useCases/syncBatches/sync-batches-db-use-case.ts:176-256 | in every run the store holds exactly the traces some step inserted, each with the stamp of the first; dead letters and poison records are exactly those some step made |
| `SyncCursor.CommitsUnlessOutage` | packages/connector/src/application/useCases/syncTraces/trace-ingestor.ts:57-66 | in every run a worked batch can move the cursor unless it has ten or more traces and all of them failed |
| `SyncCursor.DriftIff` | packages/connector/src/infrastructure/traceSource/langwatch/clickhouse/clickhouse-langwatch-client.ts:532-541 | a fetch stops as schema drift exactly when it has ten or more rows and none is a trace |
| `SyncCursor.FastClockLosesARow` | packages/connector/src/application/useCases/syncBatches/sync-batches-db-use-case.ts:111-124 | with a ceiling past the source's clock by any margin, a concrete run loses a row |
| `SyncCursor.SafeExactlyWithoutMargin` | packages/connector/src/application/useCases/syncBatches/sync-batches-db-use-case.ts:111-124 | runs whose fetch ceilings lie at most `margin` past the source's clock never lose a row if and only if the margin is not positive |
| `SyncCursor.CommitAdvances` | packages/connector/src/application/useCases/syncBatches/sync-batches-db-use-case.ts:128-149 | a committed batch moves the cursor strictly past where it was read |
| `SyncCursor.DrainShrinks` | packages/connector/src/application/useCases/syncBatches/sync-batches-db-use-case.ts:263-266 | while the source is quiet each committed batch leaves strictly fewer rows ahead |
| `SyncCursor.ShortBatchCatchesUp` | packages/connector/src/application/interfaces/trace-batch-source.ts:16-27 | a batch shorter than the limit leaves no quiet row behind |
| `SyncCursor.SyncStores.SyncNextBatch` | packages/connector/src/application/useCases/syncBatches/sync-batches-db-use-case.ts:102-286 | on success the store holds, beside what it held, exactly the ingested traces, a new one with the stamp of its first row; dead letters and poison records grow by exactly the failing and the poison rows; the counts are those of the batch; each error arises exactly when its cause does and leaves the cursor, with exactly the rows worked before it filed |
| `Prices.LatestFacts` | packages/core/src/application/interfaces/price-version-repository.ts:9-14 | the as-of lookup finds the version with the greatest date not after the instant, if there is one |
| `Prices.SameVersionsSamePrices` | packages/connector/src/application/useCases/syncBatches/batch-price-cache.ts:10-26 | only which versions are in effect matters, not the instant |
| `Prices.StampMeaning` | packages/core/src/application/useCases/priceStamping/price-stamper.ts:37-109 | all or nothing: a stamp prices every used type once, adds up and rounds fairly; pending exactly when a used type has no price, naming those types; no measured usage is never valued |
| `PriceCache.BatchPriceCache.FindEffectivePrices` | packages/connector/src/application/useCases/syncBatches/batch-price-cache.ts:36-58 | over a table unchanged since it was read, the cached answer is the direct lookup's; whatever happens to the table, it is the entry of the interval, or a fresh lookup when there is none |
| `PriceCache.AnswerBatch` | packages/connector/src/application/useCases/syncBatches/batch-price-cache.ts:28-84 | every answer of a whole batch of queries is the direct lookup's |
| `PriceCache.SameInterval` | packages/connector/src/application/useCases/syncBatches/batch-price-cache.ts:41-47 | two dates have the same interval count exactly when they are on the same side of every boundary |
| `PriceCache.CacheKeyInjective` | packages/connector/src/application/useCases/syncBatches/batch-price-cache.ts:49 | the key text determines model and interval, whatever the model's text |
| `PriceCache.IntervalsSoundIff` | packages/connector/src/application/useCases/syncBatches/batch-price-cache.ts:12-26 | caching by interval is right for all pairs of dates exactly when the date of every version that shows was read; an unresolvable version shows when it silences one that answered |
| `PriceCache.ServedRightIff` | packages/connector/src/application/useCases/syncBatches/batch-price-cache.ts:23-58 | dates read from any table, an entry filled later from another, served after the table grew again: right for every pair of dates of the interval exactly when every version that shows in it had its date read and none registered since is seen in it |
| `PriceCache.CachedAnswerIff` | packages/connector/src/application/useCases/syncBatches/batch-price-cache.ts:23-26 | when dates and entry come from one table, the answer served later at a date is the direct lookup's exactly when no version registered since is in force and seen at that date |
| `PriceCache.RegisteredMidBatch` | packages/connector/src/application/useCases/syncBatches/batch-price-cache.ts:23-58 | a run of the cache that serves a stale answer although every version's date was read |
| `PriceCache.ServedTooEarly` | packages/connector/src/application/useCases/syncBatches/batch-price-cache.ts:23-58 | a run of the cache that serves a price at a date before it takes effect |
| `PriceCache.UnlistedDateSplitsAnInterval` | packages/connector/src/application/useCases/syncBatches/batch-price-cache.ts:12-26 | a version that shows at an unread date gives two dates of one interval different answers |
| `Stamping.StampStaysBound` | packages/connector/src/application/useCases/syncTraces/trace-ingestor.ts:170-344 | in every run, through direct or cached lookups, a stamped trace's costs are what the stamping rule gives for its stored tokens and model under a table that existed when it was stamped, as of a date of the trace's own interval; as of its own date whenever every version of that table that shows in the interval had its date read, and always when dates and prices were read from one table; nothing later changes stamp or model |
| `Stamping.LastModel` | packages/core/src/application/interfaces/trace-repository.ts:103-125 | in every run a trace has the last model a step carried for it until it was stamped: a pending one takes each refresh that has a model, a stamped one none |
| `Stamping.StampPendingIff` | packages/core/src/application/interfaces/trace-repository.ts:127-143 | a pending trace that was read is stamped exactly when it is still pending with the model it was read with and the table prices all it used |
| `Stamping.ModelKeysDiffer` | packages/core/src/domain/models/model-ref.ts:70-71 | models with a provider share a price key only if they are the same, as long as no provider has a slash |
| `Stamping.CoveredRunBinds` | packages/connector/src/application/useCases/syncBatches/sync-batches-db-use-case.ts:173-215 | in every run whose cached ingests use entries so covered, every stamp is what some table that existed gives for the trace's own date, whatever was registered later |
| `Stamping.IngestRightIff` | packages/connector/src/application/useCases/syncBatches/sync-batches-db-use-case.ts:173-215 | in any state the invariant allows, ingesting new traces through a batch's entry leaves the state that direct lookups in the entry's own table leave, for all dates of the interval and all usage, if and only if every version that shows in the interval had its date read |
| `Stamping.StampedTooEarly` | packages/connector/src/application/useCases/syncBatches/sync-batches-db-use-case.ts:173-215 | a run of ingestion that stores a stamp with a price that takes effect only after the trace; no table that ever existed gives it |
| `BatchLookups.CachedLookup` | packages/connector/src/application/useCases/syncBatches/batch-price-cache.ts:34-83 | a lookup of the cache class is the transition system's reading of dates and filling of an entry, and answers from that entry |
| `BatchLookups.EntryStampsRightIff` | packages/connector/src/application/useCases/syncBatches/batch-price-cache.ts:12-26 | stamping from an entry is stamping from its table as of the trace's date, for every date of the interval and all usage, if and only if every version that shows in the interval had its date read |
| `Stamping.StepKeeps` | packages/core/src/application/interfaces/trace-repository.ts:112-143 | direct and cached ingest, the cache's own reads, refresh, price registration and the pinned pending stamp keep the invariant: every stamp is served so, and no step changes a stamp |
| `Stamping.BillLinesAreFair` | packages/core/src/common/helpers/money/money.ts:76-86 | on any bill of stamped records a line is off from tokens times price by at most half a micro-centavo per stamp folded into it |
| `PendingSweep.PendingStore.Reprocess` | packages/core/src/application/useCases/reprocessPending/reprocess-pending-db-use-case.ts:60-135 | a run examines exactly the first `cap` of the filtered queue past the cursor, each once and in order, removes exactly the stamped ones, counts every outcome, and hands over where it stopped |
| `PendingSweep.PendingStore.ReprocessPage` | packages/core/src/application/useCases/reprocessPending/reprocess-pending-db-use-case.ts:137-204 | each trace of a page counts once under its outcome and leaves the queue only when stamped |
| `PendingSweep.WalkOn` | packages/core/src/application/useCases/reprocessPending/reprocess-pending-db-use-case.ts:99-126 | after some of a walk, with the stamped ones gone from the queue, walking on from the last key visits exactly the rest |
| `PendingSweep.OutcomesAddUp` | packages/core/src/application/useCases/reprocessPending/reprocess-pending-db-use-case.ts:137-204 | examined equals stamped, still pending, failed and blocked together |
| `PendingSweep.CountersMean` | packages/core/src/application/useCases/reprocessPending/reprocess-pending-db-use-case.ts:137-204 | each counter is the number of examined traces that met its own outcome |
| `PendingSweep.RunSweepCycle` | packages/connector/src/main/jobs/sweep-pacing.ts:23-75 | a cycle is skipped exactly when no round is open and the interval has not passed; otherwise one capped chunk from the round's own cursor, with its report |
| `PendingSweep.RunRound` | packages/connector/src/main/jobs/sweep-pacing.ts:23-75 | with no arrivals, a round of capped chunks ends; the trail of traces it examined is the model-bearing queue, each once and in order; it leaves the queue, and its chunk reports add up to the report, of one uncapped run |
| `SweepArrivals.RoundExamines` | packages/connector/src/main/jobs/sweep-pacing.ts:44-75 | however arrivals and chunks interleave, a round examines traces strictly in order, none twice, and once ended has examined exactly the model-bearing ones queued at its start and those that arrived ahead of where it then stood |
| `SweepArrivals.Cycle` | packages/connector/src/main/jobs/sweep-pacing.ts:57-75 | one cycle of an open round is one chunk of that transition system |
| `ClientCalendar.MonthStartIsCivil` | packages/core/src/common/helpers/clock/client-clock.ts:101-106 | the first day of a month, counted from the epoch, is the closed Gregorian form: years from March, a leap day every four but not every hundred but every four hundred |
| `ClientCalendar.YearLength` | packages/core/src/common/helpers/clock/client-clock.ts:101-106 | a year has 366 days exactly when it is divisible by 4 and not by 100, or by 400 |
| `ClientCalendar.FourCenturies` | packages/core/src/common/helpers/clock/client-clock.ts:101-106 | 4800 months are 146097 days |
| `ClientCalendar.CrossesIff` | packages/core/src/common/helpers/clock/client-clock.ts:93-106 | the two-pass correction lands on the instant the local clock reaches a reading exactly when the clock reaches it once and for all and the offset at the first guess separates the reading from that instant |
| `ClientCalendar.CrossesAtChange` | packages/core/src/common/helpers/clock/client-clock.ts:93-106 | with one change of offset near the reading it lands exactly when the change is harmless, decided from the instant and the two offsets |
| `ClientCalendar.SteadyMidnightCrosses` | packages/core/src/common/helpers/clock/client-clock.ts:93-106 | it lands whenever no transition is near |
| `ClientCalendar.MonthMembershipIff` | packages/core/src/common/helpers/clock/client-clock.ts:101-118 | an instant is in a month's window exactly when the client calendar names that month, at all instants, if and only if the correction lands on that first midnight and the next |
| `ClientCalendar.MonthMembershipAtChanges` | packages/core/src/common/helpers/clock/client-clock.ts:93-118 | with one transition near either end of the month, that holds if and only if both are harmless, decided from their instants and offsets alone |
| `ClientCalendar.AllAgreeIff` | packages/core/src/common/helpers/clock/client-clock.ts:101-118 | window and calendar agree at every instant if and only if the correction lands on every month's first midnight |
| `ClientCalendar.WindowsTile` | packages/core/src/domain/models/billing-period-model.ts:109-141 | in every zone, whatever its transitions, month starts increase strictly and every instant lies in exactly one window |
| `ClientCalendar.DayMembershipIff` | packages/core/src/common/helpers/clock/client-clock.ts:121-131 | for a day near which offsets differ by at most a day, the instants between its start and the next are those of that local date if and only if the correction lands on both midnights |
| `ClientCalendar.DayStartLands` | packages/core/src/common/helpers/clock/client-clock.ts:121-131 | when the correction lands on the date's midnight and on the next, the start of an instant's day is the first instant of its local date |
| `ClientCalendar.DaysComposeIff` | packages/core/src/common/helpers/clock/client-clock.ts:138-149 | stepping `i` days and then any `j` lands where `i + j` lands, if and only if the step of `i` days lands on the date it aims at |
| `ClientCalendar.FixedZoneAgrees` | packages/core/src/common/helpers/clock/client-clock.ts:93-118 | in a fixed-offset zone window and calendar agree at every instant |
| `ClientCalendar.BackToMidnightDisagrees` | packages/core/src/common/helpers/clock/client-clock.ts:93-106 | a clock set back to midnight at Greenwich: the repeated hour is the new month by the calendar and the old month by the window |
| `ClientCalendar.ForwardAtMidnightDisagrees` | packages/core/src/common/helpers/clock/client-clock.ts:93-106 | a clock set forward from midnight west of Greenwich: the old month's last hour is in the new month's window |
| `ClientCalendar.BackFromMidnightAgrees` | packages/core/src/common/helpers/clock/client-clock.ts:93-106 | a clock set back from midnight does no harm |
| `Periods.StatusByOrdinal` | packages/core/src/domain/models/billing-period-model.ts:81-101 | the status is the month's place on the calendar unless it is closed |
| `Periods.BillableYears` | packages/core/src/domain/models/billing-period-model.ts:109-128 | a month is billable exactly when its year is one of 1970 to 9999 |
| `Periods.FirstOpenMonthStart` | packages/core/src/domain/models/billing-period-model.ts:212-266 | the walk over closed months ends at the start of the specified bound month; none exactly when nothing is closed |
| `Periods.BoundBeforeOpenMonth` | packages/core/src/domain/models/billing-period-model.ts:175-192 | when the earliest trace fits, every trace in the window of a month that is not closed lies at or after the bound with its whole month |
| `Periods.BoundHidesNothingIff` | packages/core/src/domain/models/billing-period-model.ts:175-192 | over all lifecycle histories the bound hides no such trace if and only if the calendar month of the earliest trace is no later than its window's month |
| `Periods.BoundHidesNothing` | packages/core/src/domain/models/billing-period-model.ts:175-192 | in calendar terms: a trace that agrees with its window, of a month that is not closed, lies at or after the bound with its whole month |
| `Periods.RepeatedHourIsHidden` | packages/core/src/domain/models/billing-period-model.ts:212-266 | a trace in the hour repeated at a month's first midnight, its calendar month closed: the bound lies after it though the month of its window is not closed |
| `Periods.BoundMonthFacts` | packages/core/src/domain/models/billing-period-model.ts:204-266 | the bound month is not closed, no reopened month is before it, and it is no earlier than it must be |
| `Periods.AssertOlderMonthsClosed` | packages/module/src/application/useCases/billingLifecycle/close-billing-period-db-use-case.ts:362-414 | in any zone the guard answers by the first month of its walk that it cannot get past: none, one that holds traces and was never closed, or one outside the calendar |
| `Periods.PassesIff` | packages/module/src/application/useCases/billingLifecycle/close-billing-period-db-use-case.ts:362-414 | when the earliest trace fits, a close that passes leaves no trace in the window of an older month that is not closed, and from a billable first month on it passes exactly then |
| `Periods.GuardSoundIff` | packages/module/src/application/useCases/billingLifecycle/close-billing-period-db-use-case.ts:362-414 | with a billable calendar month for the earliest trace: over all sets of closed months and all targets, a passing close leaves no such trace if and only if the earliest trace fits |
| `Periods.WindowsAreCalendar` | packages/module/src/application/useCases/billingLifecycle/close-billing-period-db-use-case.ts:362-414 | when every trace agrees with its window, the guard's meaning reads the same in calendar months |
| `Periods.BlockedNamesOldest` | packages/module/src/application/useCases/billingLifecycle/close-billing-period-db-use-case.ts:362-414 | a blocked close names the oldest month whose window holds traces and that was never closed; the guard fails on the calendar only when the earliest trace lies outside it |
| `AutoClose.DueIff` | packages/module/src/application/useCases/billingLifecycle/close-due-billing-periods-db-use-case.ts:124-132 | a month is due exactly when every instant of its window is further back than the delay |
| `AutoClose.RunCycle` | packages/module/src/application/useCases/billingLifecycle/close-due-billing-periods-db-use-case.ts:94-181 | the walk ends, attempts exactly the due, trace-bearing, never-closed months up to where it stopped, oldest first, and says why it stopped |
| `AutoClose.AcceptedAre` | packages/module/src/application/useCases/billingLifecycle/close-due-billing-periods-db-use-case.ts:94-181 | the closed and the raced months of the report are exactly the attempts whose close answered so, oldest first |
| `AutoClose.NeverTripsTheGuard` | packages/module/src/application/useCases/billingLifecycle/close-due-billing-periods-db-use-case.ts:94-181 | in any zone, the order guard of an attempted close, asked with the months closed before and during the cycle, can only answer that it passes |
| `AutoClose.OlderMonthsAreClosed` | packages/module/src/application/useCases/billingLifecycle/close-due-billing-periods-db-use-case.ts:94-181 | at an attempt, when the earliest trace fits, every trace in the window of an older month lies in one closed before or during the cycle |
| `BillPages.ScanCoversOpenMonth` | packages/module/src/application/useCases/billingSummary/list-bills-db-use-case.ts:53-72 | when the earliest trace fits, the bounded scan covers every month that is not closed and whose window holds a trace, from its first instant |
| `StoredTraces.StampAddsUp` | packages/core/src/application/useCases/priceStamping/price-stamper.ts:37-109 | a stamped trace's own total and token counts are the sums over its stamped costs |
| `BillPages.ScannedIsWindow` | packages/core/src/infrastructure/database/mongodb/billing/mongodb-billing-query-repository.ts:89-137 | grouping the scan by client calendar month reads exactly what the month's own window holds |
| `BillPages.ScannedTotalIsLive` | packages/core/src/infrastructure/database/mongodb/billing/mongodb-billing-query-repository.ts:146-178 | summing the scanned traces' own totals and token counts gives what the statement of that month's window sums from the stamped costs |
| `BillPages.EntryIsItsPage` | packages/module/src/application/useCases/billingSummary/list-bills-db-use-case.ts:199-235 | the entry of a month that is not closed shows the total cost, stamped traces and stamped tokens of its live statement, whenever the engine accepts the month |
| `BillList.List` | packages/module/src/application/useCases/billingSummary/list-bills-db-use-case.ts:53-153 | whatever the rows say: no month twice, strictly newest first, an entry for exactly the months with a row that are not in the future and the documented ones, each from its snapshot, its row or, its window holding nothing, empty; or an error that has its cause, a month outside 1970 to 9999 among them |
| `BillList.FailsWithCause` | packages/module/src/application/useCases/billingSummary/list-bills-db-use-case.ts:53-153 | with a cause there is an error: the list fails exactly when a month asked for lies outside the calendar, is closed without a snapshot, or holds traces outside the scan |
| `BillPages.ListSaysPages` | packages/module/src/application/useCases/billingSummary/list-bills-db-use-case.ts:53-153 | when every stored trace lies in the window of its calendar month, the entries are those of the non-future trace-bearing and the documented months, each shows what its month's page sums, and a month outside the scan never happens |
| `BillPages.ListAgreesIff` | packages/module/src/application/useCases/billingSummary/list-bills-db-use-case.ts:53-153 | over all stores holding traces at given instants, of billable months, list and pages agree if and only if every such instant lies in the window of its calendar month |
| `BillPages.LoneTraceMisplaced` | packages/module/src/application/useCases/billingSummary/list-bills-db-use-case.ts:199-228 | a stamped trace outside the window of its calendar month: the list shows one trace in that month, whose page has none |
| `BillPages.ReopenedMonthFails` | packages/module/src/application/useCases/billingSummary/list-bills-db-use-case.ts:155-197 | when its window's month was reopened, that month gets no row and the list can only fail on it |
| `BillPages.EpochTraceFails` | packages/core/src/domain/models/billing-period-model.ts:109-128 | west of Greenwich a trace at the epoch lies in a month before 1970, on which the list can only fail |
| `BillList.LeftoverItem` | packages/module/src/application/useCases/billingSummary/list-bills-db-use-case.ts:169-197 | a documented month without a row: a closed one from its snapshot, a reopened one empty exactly when its window holds no traces, and an error otherwise |
| `Confirmation.PayloadRoundTrip` | packages/module/src/presentation/mcp/confirmation.ts:113-166 | a payload reads back as itself when its text fields have no pipe and as nothing otherwise: never as another payload |
| `Confirmation.PayloadReadsIff` | packages/module/src/presentation/mcp/confirmation.ts:113-166 | of all texts exactly those read as a payload that spell it |
| `Confirmation.MintDecodes` | packages/module/src/presentation/mcp/confirmation.ts:126-201 | decoding a minted token gives the payload back or refuses it as malformed; what any other token decodes to is `DecodesIff` |
| `Confirmation.DecodesIff` | packages/module/src/presentation/mcp/confirmation.ts:175-203 | of all tokens exactly those decode to a payload that are an encoding of a text that spells it and the mac of that very text |
| `Confirmation.WrongMacRefused` | packages/module/src/presentation/mcp/confirmation.ts:191-201 | a token whose mac is not that of its data is refused as wrongly signed, whatever its fields and window |
| `Confirmation.MalformedIff` | packages/module/src/presentation/mcp/confirmation.ts:175-203 | what is no encoding and mac, or encodes no payload, is malformed; only nothing is missing |
| `Confirmation.VerifyAcceptsIff` | packages/module/src/presentation/mcp/confirmation.ts:204-236 | accepted exactly when every compared field agrees and the window is open; otherwise exactly the drifted fields are named, and only then does expiry count |
| `Confirmation.AcceptedIff` | packages/module/src/presentation/mcp/confirmation.ts:204-236 | of all tokens exactly those pass that are signed, agree with the expected payload in everything but the expiry, and whose window is open |
| `Confirmation.PipedTokenRefused` | packages/module/src/presentation/mcp/confirmation.ts:140-201 | a token minted with a pipe in a field is never accepted |
| `CanonicalJson.TextInjective` | packages/module/src/presentation/mcp/confirmation.ts:72-87 | no two values share a text, for arbitrary strings, nesting and numbers |
| `CanonicalJson.CanonicalIff` | packages/module/src/presentation/mcp/confirmation.ts:72-87 | two canonical texts are equal exactly when the values are equal up to the order of object keys |

## Left out

- StatementFolding.StatementFold.Add: token counts of a line are exact integers; the source adds them as doubles, exact below 2^53.
- Sorting.Sort: an insertion sort stands for the runtime's stable sort; `Sorting.SortedUnique` shows any sort by a strict total order gives the same answer, `Sorting.SortsLargestFirst` that ties keep their order.
- StatementViews.AgentMixViews: slices of equal cost keep their order, as a stable sort leaves them; the percentages' two-decimal rounding is display only.
- Confirmation.PayloadRoundTrip: expiries are natural numbers read exactly; the source reads digits beyond 2^53 as doubles.
- CanonicalJson.CanonicalIff: how the runtime writes a number is taken from its standard, not modelled; strings are sequences of Unicode scalar values, so lone surrogates do not occur; values hold no `undefined`.
- BillList.List: the pending, quarantined and unbilled-token counts of an entry, read live beside the bill, are not modelled.
- Keyset.Before: one order stands for the store's comparison of trace ids and the code's; they differ only between characters beyond U+FFFF and U+E000 to U+FFFF.
- Stamping.StampStaysBound: a failed lookup, which a batch's cache would go on answering with its failure, is not a step. The runbook's manual attribution correction is a store script and is not modelled.
- PendingSweep.PendingStore.ReprocessPage: a stamp that loses its compare-and-set to a concurrent writer counts as stamped in the source and would leave the trace queued; without concurrent writers it cannot lose.
- PriceCache.BatchPriceCache.FindEffectivePrices: lanes that ask for one interval at once share the in-flight lookup; the class looks up and stores in one step, and in `Stamping` the reading of dates, the filling of an entry and each ingest are steps of their own.
- PendingSweep.RunRound: no trace joins the queue during the round, which might not end otherwise (`SweepArrivals` has the arrivals); the outcome of each trace is any function of it, so every price table and closed-month set is covered.
- Lifecycle.StepKeeps: one month, pages as numbered parts of it; the month-over, time-zone and close-order guards of `close()` are not steps of it (the last is `Periods.AssertOlderMonthsClosed`).
- Lanes.RunsTerminate: an item's work is assumed to end; a concurrency that is not a number is not modelled.
- SyncCursor.SyncStores.SyncNextBatch: works the rows in batch order; other orders are the transition system's, and lanes are `Lanes`. Rows too broken to carry a cursor key are not modelled.
- The classification of store errors, truncation of oversized content and the poison salvage gate: each is settled by one short function.
- MongoDB and ClickHouse adapters, HTTP and MCP transport, environment parsing, logging and wording of messages: plumbing.
- The monthly and daily series walks over months and days, the month-end projection and query validation: they read what is modelled here and add no state of their own.
