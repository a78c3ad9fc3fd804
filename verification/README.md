# Verification of lootgoblin's ledgers, protocols and transforms

This Dafny project models the parts of lootgoblin whose correctness spans several functions, several concurrent
callers or whole histories, and proves properties of them for all inputs, all runs and all interleavings.
`dafny verify dfyconfig.toml` checks everything.

| files | subject |
|---|---|
| `Materials`, `MaterialStore`, `MaterialRules`, `MaterialRuns`, `MaterialMass`, `MaterialStock` | the materials table and its event ledger: the five operations as methods of an object, what each accepts, refuses and leaves behind, the operations as transactions of a concurrent machine, their conservation laws, and stock levels |
| `Reports`, `Outcomes`, `ReportResults` | consumption reports over mutable accumulators, what each returned row says, the laws between the rows, and their reconciliation with the inventory |
| `Dispatch` | the dispatch-job state machine of compare-and-set updates |
| `Pairing` | courier pairing: a one-time token exchanged for a key in separately committed steps, and the key's authentication |
| `Ingest` | the ingest pipeline, its outcome and job row, and deduplication over histories |
| `Links`, `LinkShapes`, `Utf8`, `Paging` | link normalisation and the URL shapes of the nine sources, file-name truncation, keyset paging |
| `SeedImport`, `SeedRules`, `Colors`, `ColorRules`, `Backoff` | the idempotent seed import, the colour transform against its validator, the rules of both, backoff arithmetic |
| `Sums`, `Text` | finite sums, Option and Result; characters and letter case |

Code that changes state step by step is modelled by classes and loops (`Inventory`, `Accumulator`, `JobTable`, `PairingDb`,
`IngestPipeline`, `Importer`), each method proved against a function of the old state; the laws are then proved about those
functions. What an operation answers and leaves behind is stated once more without these functions, field by field and
case by case: in the contracts themselves and in `MaterialRules`, `ReportResults`, `LinkShapes`, `ColorRules` and
`SeedRules`. Concurrency is an explicit machine: one action per awaited step, any schedule. A guarded update is atomic, a
transaction is all or nothing, an awaited read sees the tables as they are at that moment. Amounts are real numbers.

What the code outside the model decides is a parameter: generated ids and secrets, clocks, random draws, whether a ledger
write throws, what an adapter emits, what the file system and the placement helper answer, which row writes are lost.

## Where the code departs from its documentation

The model follows the code. These differences are results, each with its exact condition.

- The schema's mass invariant (`db/schema.materials.ts:423-426`) is an equality. It holds up to a slack: mixes may drift by
  0.1 ml each, untracked scrap and lost or gained recycle weight count, and mix batches and recycled spools can be created
  directly. `MaterialMass.SchemaInvariantIff` and `SchemaInvariantStep` say exactly when it holds.
- The recycle header (`materials/recycle.ts:28-30`) promises a balance of ±0.1 without an anomaly. Only a gain above five
  per cent is checked; any loss passes. `MaterialMass.BalanceGuaranteedIff` says for which inputs the balance is safe.
- A batch that names one source twice passes the per-draw check and can overdraw it (`MaterialStock.TwiceNamedOverdraws`;
  `MixKeepsStockIff` and `RecycleKeepsStockIff` say exactly when).
- The line after the backward loop of `truncateToBytes` (`scouts/filename-sanitize.ts:89`) steps off the boundary the loop
  has found whenever a multi-byte character is cut off: it loses or replaces one more character, and can exceed the limit
  (`Utf8.CutKeepsAllThatFitsIff`, `LimitExceededIff`, `CapIsBroken`).
- `"constructor" in TABLE` is true of every JavaScript object, so the material or subtype name "constructor" (or
  "__proto__") is taken for an alias and later refused by the catalog (`ColorTransform.EmittedPayloadVerdict`,
  `SeedImport.TransformedIsValidIff`).
- Deleting an agent nulls the marker of its claimed jobs (`db/schema.forge.ts:571-578`). The comment says this unclaims
  them; they stay claimed and can no longer be recovered. `Dispatch.DeletionOrphansIff` says when this happens,
  `TableIsExact` that these are the only rows off the transition table, and `OrphanedClaimIsReached` gives the run.
- A courier exchange whose agent is deleted before the last step is told that its token is used, although it is not
  (`Pairing.AlreadyUsedIsWrongIff`, `AlreadyUsedWronglyReached`).
- Consumption reports count an event once per open loadout of its material (`Outcomes.CountedOnceIff`).
- `failureReason` of an ingest job is documented as null unless the job failed or was quarantined
  (`db/schema.ingest.ts:79-83`). A paused job sets it, a quarantine does not, and a resumed job that completes keeps the
  old one. The last postcondition on the row in `Ingest.IngestPipeline.Run` says exactly when the comment is true of it.
- An empty id cannot serve as a cursor (`Paging.FollowIsIncreasingIff`, `FollowIsCompleteIff`,
  `UnchangingTableIff`, `StuckTable`).
- The claim loop's pause wraps around for bases of 2^62 ns or more, and a base above the cap is slept in full once
  (`ClaimLoop.ClosedFormIff`, `NeverShorterIff`).
- Six attempts mean five waits (`scouts/rate-limit.ts:36-40`; `RateLimit.RetriedIff`, `DefaultTotalWait`).

## Model

| member | source | states |
|---|---|---|
| `Materials.Escalate` | `apps/server/src/materials/mix.ts:184-188` | the provenance of a batch is that of one of its parts, and no part is less precise |
| `Materials.DowngradeOneNotch` | `apps/server/src/materials/recycle.ts:115-119` | an acknowledged anomaly lowers the precision by exactly one rank, down to the floor |
| `Materials.CheckDrawsAll` | `apps/server/src/materials/mix.ts:311-345` | the stopping source loop accepts a list of draws exactly when the source of each exists, is the owner's, is active and holds at least the amount drawn |
| `Materials.DrawsJudged` | `apps/server/src/materials/mix.ts:311-345` | the loop's verdict: accepted if and only if every source is there, the owner's, active and sufficient; else the reason is what is wrong with the first source that is not, looked for in that order |
| `Materials.DrawnByDistinct` | `apps/server/src/materials/mix.ts:401-406` | a source named once loses exactly the amount named for it |
| `Materials.AfterDrawsSnoc` | `apps/server/src/materials/mix.ts:401-406` | one relative update after a list of updates is the list with one more draw; a missing row is left missing |
| `MaterialStore.Inventory.CreateMaterial` | `apps/server/src/materials/lifecycle.ts:140-289` | result and whole new state of an uninterrupted call: refusals in order, row and ledger event together or neither |
| `MaterialStore.Inventory.CheckSources` | `apps/server/src/materials/mix.ts:311-345` | the loop returns the first refusal in draw order, or none if and only if every source exists, is the owner's, is active and suffices |
| `MaterialStore.Inventory.ApplyMixBatch` | `apps/server/src/materials/mix.ts:213-458` | result and whole new state of an uninterrupted mix: refusals in order, every decrement, batch row, link row and event, or a complete roll-back |
| `MaterialStore.Inventory.DecrementEach` | `apps/server/src/materials/mix.ts:401-406` | the decrement loop takes from every row the sum of its draws and changes nothing else |
| `MaterialStore.Inventory.CheckInputs` | `apps/server/src/materials/recycle.ts:230-265` | the recycle loop checks tracked inputs only, by the same four rules, first refusal first |
| `MaterialStore.Inventory.DecrementTracked` | `apps/server/src/materials/recycle.ts:342-348` | the recycle decrements take the tracked weights and nothing for scrap |
| `MaterialStore.Inventory.ApplyRecycleEvent` | `apps/server/src/materials/recycle.ts:143-399` | result and whole new state of an uninterrupted recycle, with the anomaly rule and the provenance downgrade |
| `MaterialStore.Inventory.HandleMaterialConsumed` | `apps/server/src/materials/consumption.ts:188-298` | result and whole new state of an uninterrupted consumption |
| `MaterialStore.Inventory.RetireMaterial` | `apps/server/src/materials/lifecycle.ts:309-424` | result and whole new state of an uninterrupted retirement; the amount is kept |
| `MaterialRules.CreateJudged` | `apps/server/src/materials/lifecycle.ts:140-215` | creation is refused for the first broken rule: owner, unit for the kind, colours and pattern, positive amount |
| `MaterialRules.CreatedRow` | `apps/server/src/materials/lifecycle.ts:168-289` | creation succeeds if and only if no rule is broken, the id is new and the ledger takes the event; the row is then full, active and its owner's, its colours in upper case, and no other row changes |
| `MaterialRules.MixRulesHold` | `apps/server/src/materials/mix.ts:219-281` | a mix request is refused for the first broken rule: volume, two to ten draws, each well formed, their sum within 0.1 of the volume, complete colour fields, fitting colours |
| `MaterialRules.MixAcceptedIff` | `apps/server/src/materials/mix.ts:219-345` | a mix is refused nothing if and only if its request, its recipe and every source satisfy the listed conditions, the source being active among them |
| `MaterialRules.MixSourcesJudged` | `apps/server/src/materials/mix.ts:311-345` | a mix that passes the checks of its request and recipe is refused exactly for the first source that is missing, another's, retired or short |
| `MaterialRules.RecipeJudged` | `apps/server/src/materials/mix.ts:283-306` | an unknown or another's recipe is reported as not found, a wrong number of draws as such |
| `MaterialRules.MixOutcome` | `apps/server/src/materials/mix.ts:213-458` | a mix succeeds if and only if it is acceptable, its ids are new and the ledger takes its event; then every source was there, the actor's, active and sufficient, and batch, decrements, link row and event are as listed; else nothing changes |
| `MaterialRules.RecycleRulesHold` | `apps/server/src/materials/recycle.ts:149-228` | a recycle request is refused for the first broken rule: owner and actor, one to twenty inputs, each well formed, positive output, acknowledgement of an output above 1.05 times the input, complete colour fields, fitting colours |
| `MaterialRules.RecycleAcceptedIff` | `apps/server/src/materials/recycle.ts:149-265` | a recycle is refused nothing if and only if its request and every tracked source satisfy the listed conditions |
| `MaterialRules.RecycleSourcesJudged` | `apps/server/src/materials/recycle.ts:230-265` | a recycle that passes the checks of its request is refused exactly for the first tracked source that is missing, another's, retired or short; scrap is never checked |
| `MaterialRules.RecycleOutcome` | `apps/server/src/materials/recycle.ts:143-399` | a recycle succeeds if and only if it is acceptable, its ids are new and the ledger takes its event; then every tracked source was active and sufficient, and spool, decrements, row and event are as listed, the provenance one notch lower after a gain; else nothing changes |
| `MaterialRules.ConsumeOutcome` | `apps/server/src/materials/consumption.ts:188-298` | a consumption succeeds for every known material and positive weight however little is left; the row loses the weight, the event is waste unless it was printed, and asks for reconciliation exactly below zero |
| `MaterialRules.RetireJudged` | `apps/server/src/materials/lifecycle.ts:309-376` | a retirement is refused for the first broken rule: id, reason, existence, not yet retired, acknowledgement if loaded, no active dispatch |
| `MaterialRules.RetireOutcome` | `apps/server/src/materials/lifecycle.ts:309-424` | a retired row is inactive and otherwise unchanged, amount included, and so is every other row |
| `MaterialRuns.RunKeeps` | `apps/server/src/materials/mix.ts:394-433` | for any number of calls, any interleaving of their separate reads with other calls' commits, any roll-back and any key collision: ledger replay, event mass rules, one mix or recycle row per event, and no row ever lost or given to another owner |
| `MaterialRuns.LedgerReplay` | `apps/server/src/materials/mix.ts:401-433` | throughout every run from consistent tables each material's remaining amount is its initial amount less all the ledger records against it, so no decrement is lost or counted twice |
| `MaterialRuns.EmptyIsConsistent` | `apps/server/src/db/schema.materials.ts:419-430` | empty tables are consistent, so every run may start there |
| `MaterialRuns.TransactKeeps` | `apps/server/src/materials/recycle.ts:335-375` | each of the five transactions keeps these invariants on whatever tables it meets, though it was validated on earlier ones |
| `MaterialRuns.ReadKeeps` | `apps/server/src/materials/mix.ts:311-345` | what a call has learnt from a passed read (existence and owner of its sources) stays available to its commit |
| `MaterialRuns.RecordedOutside` | `apps/server/src/materials/consumption.ts:254-276` | the ledger never records anything against a material that does not exist yet |
| `MaterialMass.MixDrift` | `apps/server/src/materials/mix.ts:255-263` | throughout every run from consistent tables the total volume of the n mix batches so far is within 0.1 n of the total drawn for them |
| `MaterialMass.RecycleGain` | `apps/server/src/materials/recycle.ts:197-204` | throughout every run from consistent tables the output of unacknowledged recycles is at most 1.05 times their input |
| `MaterialMass.RunMass` | `apps/server/src/db/schema.materials.ts:423-426` | in every run the initial mass of mixes and recycled spools equals the recorded decrements plus an exactly defined slack |
| `MaterialMass.SchemaInvariantIff` | `apps/server/src/db/schema.materials.ts:423-426` | the equality the schema demands holds after a run if and only if the slacks of its events cancel |
| `MaterialMass.SchemaInvariantStep` | `apps/server/src/db/schema.materials.ts:423-426` | one commit keeps that equality if and only if its request has no slack, which the caller can compute beforehand |
| `MaterialMass.SchemaInvariantFails` | `apps/server/src/materials/lifecycle.ts:140-289` | a two-step run that breaks the equality: creating a mix batch directly |
| `MaterialMass.DirectMixBatchIsValid` | `apps/server/src/materials/lifecycle.ts:146-160` | the input of that run passes validation |
| `MaterialMass.BalanceGuaranteedIff` | `apps/server/src/materials/recycle.ts:28-39` | the ±0.1 balance of the file header holds of every output that validation accepts without anomaly if and only if the inputs weigh at most 0.1 together |
| `MaterialMass.LossIsAccepted` | `apps/server/src/materials/recycle.ts:181-204` | a literal recycle of 100 g into 1 g that is accepted and stored, unacknowledged and without anomaly |
| `MaterialStock.MixKeepsStockIff` | `apps/server/src/materials/mix.ts:311-345` | an accepted uninterrupted mix takes no material from zero or more to below zero if and only if each source covers everything drawn from it, whatever other materials already are; naming sources once suffices |
| `MaterialStock.RecycleKeepsStockIff` | `apps/server/src/materials/recycle.ts:230-265` | the same for recycling |
| `MaterialStock.TwiceNamedOverdraws` | `apps/server/src/materials/mix.ts:311-345` | a literal mix that names one source twice is accepted, and leaves that source at −1 |
| `MaterialStock.InterleavedCallsOverdrawIff` | `apps/server/src/materials/mix.ts:308-406` | in the concurrent machine, for any number of calls of any kind that all pass their checks on the same tables before the first commits: a material is below zero afterwards if and only if the commits that are not rolled back draw more on it together than it held |
| `MaterialStock.CommitAllDraws` | `apps/server/src/materials/mix.ts:394-433` | after any list of such commits a material has lost exactly what they drew on it |
| `MaterialStock.GoesBelowIff` | `apps/server/src/materials/consumption.ts:218-219` | a single call whose batch names each source once takes a material below zero if and only if it is a consumption of more than the material holds |
| `MaterialStock.OverdrawIsRecorded` | `apps/server/src/materials/consumption.ts:218-250` | the event such a consumption appends records a negative amount and asks for reconciliation |
| `MaterialStock.OnlyConsumptionGoesNegative` | `apps/server/src/materials/consumption.ts:218-276` | in sequential runs whose batches name each source once, a material that goes from not below zero to below zero was taken there by one particular call: a consumption of more than it then held, whose own appended event says so; earlier events of the ledger play no part |
| `MaterialStock.ConsumptionIsHonest` | `apps/server/src/materials/consumption.ts:218-219` | an uninterrupted consumption reports the amount the row now has, and reconciliation exactly when that is negative |
| `MaterialStock.UninterruptedCall` | `apps/server/src/materials/mix.ts:283-433` | the concurrent machine's separate steps, run without interruption, do to the tables exactly what the sequential method does |
| `Reports.Accumulator.Increment` | `apps/server/src/materials/reports.ts:163-180` | the mutable totals remain the sums, class sums, common unit and count of all observations seen |
| `Reports.Accumulator.Finalize` | `apps/server/src/materials/reports.ts:182-193` | the row has the sum of the observations seen, their sum under each class, their number and their common unit, grams if none has a unit |
| `Reports.BumpUnitIsUnitOf` | `apps/server/src/materials/reports.ts:146-154` | the incremental rule yields the unit of the list, 'mixed' exactly when both units have occurred |
| `Reports.TotalConsumption` | `apps/server/src/materials/reports.ts:598-613` | the row's total is the sum of the amounts of all fetched events, each class part the sum over that class, the count their number, and the unit mixed, millilitres or grams as the units that occur say |
| `Reports.ConsumptionBy` | `apps/server/src/materials/reports.ts:333-466` | for any key: one row for each key that occurs and no other, each with the total, class parts, count and unit of exactly the events that have its key; sorted, no key last |
| `Reports.ConsumptionByBrand` | `apps/server/src/materials/reports.ts:333-364` | that report with the material's brand for key |
| `Reports.ConsumptionByColor` | `apps/server/src/materials/reports.ts:381-416` | that report with the first colour for key, its letters in upper case, and none where there are no colours |
| `Reports.ConsumptionByPrinter` | `apps/server/src/materials/reports.ts:435-466` | with the printer of its open loadout |
| `Reports.FillBuckets` | `apps/server/src/materials/reports.ts:337-360` | each bucket has seen exactly its key's events, in order, and no two keys share one |
| `Reports.FetchMembers` | `apps/server/src/materials/reports.ts:217-300` | the fetched events are exactly those of the owner's materials, from the start of the window to before its end, whose payload is readable, each with every printer its material is loaded in, or with none |
| `Reports.RowsSumToTotal` | `apps/server/src/materials/reports.ts:333-466` | over any set of keys that covers the events, the row totals and every provenance part add up to the whole |
| `Reports.ProvenancePartsSum` | `apps/server/src/materials/reports.ts:324-332` | the provenance parts of a row fall short of its total by exactly the amounts of unknown class, so they sum to it when every class is known |
| `Reports.SumOrderIndependent` | `apps/server/src/materials/reports.ts:163-180` | sums do not depend on event order |
| `Reports.RowOrderIndependent` | `apps/server/src/materials/reports.ts:182-193` | whole rows do not depend on event order |
| `Reports.AdjacentWindows` | `apps/server/src/materials/reports.ts:257-264` | two adjacent half-open windows fetch together exactly what the joined window fetches |
| `Reports.WindowTotalsAdd` | `apps/server/src/materials/reports.ts:257-264` | so totals and provenance parts of adjacent windows add up |
| `Outcomes.ConsumptionByOutcome` | `apps/server/src/materials/reports.ts:494-578` | three rows in fixed order: the total, class parts, count and unit of the printed events that are no waste, of the waste, and of the tracked inputs of the owner's recycles in the window |
| `Outcomes.OutcomesSplitTotal` | `apps/server/src/materials/reports.ts:507-520` | print output and waste fall short of the total by exactly the events with neither outcome |
| `Outcomes.HandlerEventsHaveOutcome` | `apps/server/src/materials/consumption.ts:221-222` | every event the consumption handler writes is print output or waste |
| `Outcomes.PrintAndWasteAreTotal` | `apps/server/src/materials/reports.ts:580-597` | on every reachable ledger print output plus waste is the total, per provenance class too |
| `Outcomes.FetchedOnce` | `apps/server/src/materials/reports.ts:245-264` | with at most one open loadout per material a consumption is fetched once for its owner and never for others |
| `Outcomes.CountedOnceIff` | `apps/server/src/materials/reports.ts:250-256` | a consumption is counted once per open loadout of its material, so once in all if and only if there is at most one |
| `Outcomes.TwoLoadoutsCountTwice` | `apps/server/src/materials/reports.ts:250-256` | a material open in two printers: a consumption of 5 is reported as 10 |
| `Outcomes.ReportsReconcile` | `apps/server/src/materials/reports.ts:580-613` | in every consistent state, over a window covering the ledger and with at most one open loadout per material, initial minus remaining over an owner's materials is total consumption plus mix draws plus the recycled bucket |
| `Outcomes.RecordedReconciles` | `apps/server/src/materials/reports.ts:217-300` | the same equation event by event, for every prefix of the ledger and its side tables |
| `ReportResults.RowsAddUp` | `apps/server/src/materials/reports.ts:333-466` | the returned rows of any report add up to the returned row of the total, in all and under each class |
| `ReportResults.OutcomeRowsFallShort` | `apps/server/src/materials/reports.ts:507-520` | the first two rows by outcome fall short of the total's row by exactly the events without an outcome, in amount, class part and number |
| `ReportResults.PrintAndWasteAddUp` | `apps/server/src/materials/reports.ts:580-597` | on every consistent ledger the returned print-output and waste rows add up to the total's row, in amount, under each class and in number |
| `ReportResults.InventoryLossIsReported` | `apps/server/src/materials/reports.ts:580-613` | what an owner's inventory has lost is the total's row plus the mix draws plus the recycled row, in every consistent state with at most one open loadout per material, over a window that covers the ledger |
| `ReportResults.WindowRowsAdd` | `apps/server/src/materials/reports.ts:257-264` | the returned totals, and class parts, of two adjacent windows add up to those of both |
| `ReportResults.ConsumedRowsMembers` | `apps/server/src/materials/consumption.ts:221-254` | the rows a report reads are exactly the consumption events, field by field, under the class of their provenance |
| `Colors.CheckColors` | `apps/server/src/materials/validate.ts:57-105` | acceptance if and only if one to four strict hex colours fit the pattern; the accepted list is the upper-cased input |
| `Colors.ValidateColors` | `apps/server/src/materials/validate.ts:57-105` | the validating loop computes that verdict, problems in the same order |
| `ColorTransform.NormalizeHexList` | `apps/server/src/scripts/_spoolmandb-transform.ts:191-199` | the loop keeps exactly the usable entries, in order |
| `ColorTransform.DeriveColorVariant` | `apps/server/src/scripts/_spoolmandb-transform.ts:211-274` | a variant exists exactly for usable colours, and satisfies the colour rule |
| `ColorTransform.TransformFilament` | `apps/server/src/scripts/_spoolmandb-transform.ts:303-406` | one payload per usable colour, in order, each accepted by the catalog if and only if the material name is no inherited key |
| `ColorTransform.EmittedPayloadVerdict` | `apps/server/src/materials/catalog.ts:338-365` | an emitted payload passes every creation check if and only if the material name is no inherited key |
| `ColorTransform.PrototypeNameIsRefused` | `apps/server/src/scripts/_spoolmandb-transform.ts:165-168` | the material name "constructor" is transformed and then refused |
| `ColorTransform.VariantIsAcceptable` | `apps/server/src/scripts/_spoolmandb-transform.ts:211-274` | the validator returns a derived variant's colours unchanged |
| `ColorTransform.NormalizeHexIdempotent` | `apps/server/src/scripts/_spoolmandb-transform.ts:183-189` | a normalised hex value is a fixed point |
| `ColorRules.ColorVerdict` | `apps/server/src/materials/validate.ts:57-105` | acceptance if and only if the number of strict hex colours fits the pattern; each problem reported exactly when the earlier ones are absent |
| `ColorRules.NormalizeHexIs` | `apps/server/src/scripts/_spoolmandb-transform.ts:183-189` | a hex value is normalised if and only if it is six hex digits, perhaps after a hash mark, with white space around; the result is a hash mark and the same digits in upper case |
| `ColorRules.NormalizeAllSnoc` | `apps/server/src/scripts/_spoolmandb-transform.ts:191-199` | one more entry adds its normal form if it has one, and nothing else |
| `ColorRules.PatternForIs` | `apps/server/src/scripts/_spoolmandb-transform.ts:211-274` | solid exactly for one colour, dual tone for two unless they run along the filament, gradient for three or for two along, sections for four and more |
| `ColorRules.VariantIs` | `apps/server/src/scripts/_spoolmandb-transform.ts:211-274` | a single hex decides alone; else the first four usable hexes under the pattern of them all, the colour's own direction before the brand's; no variant if and only if nothing is usable |
| `ColorRules.UsableColorsAre` | `apps/server/src/scripts/_spoolmandb-transform.ts:303-406` | exactly the colours that have a variant are used, in order |
| `ColorRules.PayloadIs` | `apps/server/src/scripts/_spoolmandb-transform.ts:303-406` | a payload is a system entry without owner, made by an admin, with the variant's colours and pattern, and no name rather than an empty one |
| `Dispatch.JobTable.RunGuardedUpdate` | `apps/server/src/forge/dispatch-state.ts:113-139` | the guarded update changes one row if its status is expected, else nothing, and says which |
| `Dispatch.JobTable.MarkConverting` | `apps/server/src/forge/dispatch-state.ts:186-197` | success if and only if the row is pending; the whole new table; the miss explained |
| `Dispatch.JobTable.MarkSlicing` | `apps/server/src/forge/dispatch-state.ts:202-222` | the same from the named state, other arguments refused |
| `Dispatch.JobTable.MarkClaimable` | `apps/server/src/forge/dispatch-state.ts:225-246` | the same from the named state, other arguments refused |
| `Dispatch.JobTable.MarkClaimed` | `apps/server/src/forge/dispatch-state.ts:252-265` | claims exactly a claimable row and stamps holder and time |
| `Dispatch.JobTable.MarkDispatched` | `apps/server/src/forge/dispatch-state.ts:271-283` | dispatches exactly a claimed row, whoever holds it |
| `Dispatch.JobTable.MarkCompleted` | `apps/server/src/forge/dispatch-state.ts:289-301` | completes exactly a dispatched row |
| `Dispatch.JobTable.MarkFailed` | `apps/server/src/forge/dispatch-state.ts:308-337` | fails exactly a non-terminal row |
| `Dispatch.JobTable.UnclaimStaleJob` | `apps/server/src/forge/dispatch-state.ts:353-380` | recovers exactly a row claimed by this agent longer ago than the timeout, empties marker and time, and changes nothing else |
| `Dispatch.JobTable.ForgetAgent` | `apps/server/src/db/schema.forge.ts:571-578` | deleting an agent empties the markers that name it, leaves the others, and changes no other column and no set of rows |
| `Dispatch.JobTable.CreateDispatchJob` | `apps/server/src/forge/dispatch-jobs.ts:67-170` | a new row in its initial status with every stamp empty; an existing id is left alone |
| `Dispatch.PatchKeeps` | `apps/server/src/forge/dispatch-state.ts:61-74` | every successful call is a legal transition and keeps the history and shape rules |
| `Dispatch.RunKeepsRows` | `apps/server/src/forge/dispatch-state.ts:186-380` | for any number of agents and any interleaving with agent deletions, each row accounts for its job's whole history, and its stamps are set exactly where its status says |
| `Dispatch.AtMostOnce` | `apps/server/src/forge/dispatch-state.ts:252-337` | at most one successful dispatch and one terminal transition per job, claims less recoveries is 0 or 1, successful steps at most 6 + 2·recoveries |
| `Dispatch.ClaimsSeparated` | `apps/server/src/forge/dispatch-state.ts:252-265` | between two successful claims of a job lies a successful stale recovery |
| `Dispatch.StandingClaimIsInRow` | `apps/server/src/forge/dispatch-state.ts:252-265` | after a successful claim, until another call on the job succeeds, the row is claimed at that time, and by that agent until the agent is deleted |
| `Dispatch.ClaimedHasStanding` | `apps/server/src/forge/dispatch-state.ts:252-265` | in every run a claimed row has a successful claim after which no other call on the job has succeeded |
| `Dispatch.RecoveredClaimWasStale` | `apps/server/src/forge/dispatch-state.ts:353-380` | in every run a successful recovery is of the same agent's last successful claim, and that is older than the timeout |
| `Dispatch.RecoverySucceedsIff` | `apps/server/src/forge/dispatch-state.ts:353-380` | while a claim stands, a recovery succeeds if and only if it is the claiming agent's, the agent has not been deleted since, and the claim is older than the timeout |
| `Dispatch.TableIsExact` | `apps/server/src/forge/dispatch-state.ts:61-74` | from any row whatever the calls make exactly the documented transitions if and only if the row is not an orphaned claim, which for rows of the proper shape means claimed with an empty marker |
| `Dispatch.DeletionOrphansIff` | `apps/server/src/db/schema.forge.ts:571-578` | deleting an agent orphans a row if and only if the row is claimed by that agent |
| `Dispatch.OrphanedClaimIsReached` | `apps/server/src/db/schema.forge.ts:571-578` | three-step runs that end in an orphaned claim: create, claim, delete the agent |
| `Dispatch.NoDeletionNoOrphan` | `apps/server/src/forge/dispatch-state.ts:252-380` | runs without agent deletion never orphan a claim |
| `Dispatch.NewJobShapeIff` | `apps/server/src/forge/dispatch-jobs.ts:46-51` | a new job satisfies the row-shape rules if and only if it starts before the claim |
| `Dispatch.DispatchIgnoresHolder` | `apps/server/src/forge/dispatch-state.ts:277-280` | the claim marker plays no part in dispatching |
| `Dispatch.OrphanedClaimNeverRecovers` | `apps/server/src/db/schema.forge.ts:571-578` | a claimed job whose agent was deleted never becomes claimable again, contrary to the schema comment that deletion unclaims it |
| `Pairing.SuccessesAreRows` | `apps/server/src/forge/couriers.ts:282-312` | in every run, agent deletions included, a nonce's successful exchanges number its row plus its cascaded rows |
| `Pairing.PairedIffConsumed` | `apps/server/src/forge/couriers.ts:288-312` | success is answered exactly by the step that commits the nonce row, and no other answer leaves one |
| `Pairing.RunKeepsInv` | `apps/server/src/forge/couriers.ts:173-313` | for any interleaving of exchanges and faults: exchanges never share an agent or key, the rows each has made are intact, and every spent nonce has a winner |
| `Pairing.OneShot` | `apps/server/src/forge/couriers.ts:282-298` | of all concurrent exchanges of one token at most one succeeds |
| `Pairing.FailuresLeaveNonceUnspent` | `apps/server/src/forge/couriers.ts:167-171` | if no exchange has succeeded the nonce is unspent, whatever failed where |
| `Pairing.RetrySucceeds` | `apps/server/src/forge/couriers.ts:167-171` | while the nonce is unspent a later fault-free exchange succeeds, whatever earlier ones left behind |
| `Pairing.FailedTokenCanBeRetried` | `apps/server/src/forge/couriers.ts:167-171` | both together: after any run without success the token can still be exchanged |
| `Pairing.KeyAuthenticatesAsAgent` | `apps/server/src/auth/courier-auth.ts:49-81` | at any later time of any run without agent deletion the key handed out authenticates as exactly the agent handed out, until the key is revoked, and as nobody from then on |
| `Pairing.AuthenticatesIff` | `apps/server/src/auth/courier-auth.ts:49-81` | a secret authenticates as an agent if and only if it opens an unrevoked, unexpired key of courier scope that the agent refers to |
| `Pairing.OrphanKeyAuthenticatesNobody` | `apps/server/src/forge/couriers.ts:259-263` | a key that was minted and never linked authenticates nobody |
| `Pairing.AlreadyUsedIsWrongIff` | `apps/server/src/forge/couriers.ts:294-297` | the last step answers 'already used' for an unspent nonce if and only if its agent was deleted meanwhile |
| `Pairing.AlreadyUsedWronglyReached` | `apps/server/src/forge/couriers.ts:282-297` | a nine-step run from empty tables that ends in this wrong answer with no nonce spent |
| `Pairing.PairingDb.ExchangePairToken` | `apps/server/src/forge/couriers.ts:173-313` | one uninterrupted exchange ends in the tables and the answer of its separate steps, for every placement of faults |
| `Pairing.EndTells` | `apps/server/src/forge/couriers.ts:173-313` | every such end: success if and only if the nonce is unspent, the ids are new and no step meets a fault, then with agent, linked key and spent nonce stored; 'already used' exactly for a nonce seen to be spent; an internal error otherwise; only success spends |
| `Ingest.IngestPipeline.Run` | `apps/server/src/scouts/pipeline.ts:142-569` | for every adapter stream and every placement of exceptions, a throwing close of the adapter included: the outcome, the job row and the library case by case, by the position of the first signal that is not progress or a rate limit within the maximum: reason and message of a failed event, reason of a pause, exhaustion above the maximum, the first file without a size, too big or without an accepted format, duplicates by hash and then by source, and each further refusal and exception; the row's attempt is that of the last rate limit read; the row agrees with it whenever the last row write was stored, and keeps its loot unless one was placed; with no write lost, the schema's comment on the failure reason holds of the row if and only if the stream and the environment neither pause the job nor place a loot for a row that already had a reason; removal of the staging directory is attempted once and last |
| `Ingest.PausesAndPlacesIff` | `apps/server/src/scouts/pipeline.ts:268-545` | exactly when a run pauses and when it places a loot, old or new, in terms of its stream, its environment and the library |
| `Ingest.OutcomeTells` | `apps/server/src/scouts/pipeline.ts:142-569` | the reference outcome is that case table, for every stream, environment and library |
| `Ingest.OutcomeOfItemTells` | `apps/server/src/scouts/pipeline.ts:330-394` | a completed item without files is quarantined as invalid; else its first bad file decides: no size, too big, sniffing throws, or no accepted format, the sniffed one before the extension; without one, placement decides |
| `Ingest.OutcomeOfPlacementTells` | `apps/server/src/scouts/pipeline.ts:396-545` | hash, then source, then collection, root and placement helper, in this order; a match gives the loot of the first row that matches |
| `Ingest.ReadingStops` | `apps/server/src/scouts/pipeline.ts:268-315` | after progress and rate limits within the maximum only, the first other signal decides |
| `Ingest.PausedJobHasReason` | `apps/server/src/db/schema.ingest.ts:79-83` | a run on a fresh job after which the comment is false: one demand for authentication |
| `Ingest.ResumedJobKeepsReason` | `apps/server/src/db/schema.ingest.ts:79-83` | a run on a resumed job after which it is false: the job completes and keeps the reason of its pause |
| `Ingest.IngestPipeline.Attempt` | `apps/server/src/scouts/pipeline.ts:172-545` | the try block yields that outcome or the message of what it threw |
| `Ingest.IngestPipeline.DriveAdapter` | `apps/server/src/scouts/pipeline.ts:265-327` | the event loop stops at the first decisive signal and does what that signal says, unless closing the adapter throws |
| `Ingest.IngestPipeline.CheckFiles` | `apps/server/src/scouts/pipeline.ts:360-394` | the first bad file decides the quarantine reason |
| `Ingest.IngestPipeline.Place` | `apps/server/src/scouts/pipeline.ts:396-545` | hash match first, then source match, then a new loot; the library afterwards |
| `Ingest.IngestPipeline.SafeUpdateJob` | `apps/server/src/scouts/pipeline.ts:583-593` | a row write is stored or silently lost |
| `Ingest.IngestPipeline.SafeCreateQuarantineItem` | `apps/server/src/scouts/pipeline.ts:602-639` | an item is made exactly when the collection is found and the insert works |
| `Ingest.IngestPipeline.EnsureLootSourceRecord` | `apps/server/src/scouts/pipeline.ts:645-663` | one attribution row more, unless the unique index or a fault prevents it |
| `Ingest.PlacesNewLootIff` | `apps/server/src/scouts/pipeline.ts:407-545` | a new loot is placed if and only if the stream completes with acceptable files, nothing matches, every lookup works and the placement helper succeeds |
| `Ingest.NothingAfterDecision` | `apps/server/src/scouts/pipeline.ts:268-315` | signals after the decisive one have no effect beyond how the adapter closes; a close that throws makes every decisive event an unknown failure |
| `Ingest.CloseMattersIff` | `apps/server/src/scouts/pipeline.ts:268-315` | the adapter's close matters to the outcome if and only if the adapter yields a decisive event |
| `Ingest.NothingBeforeDecision` | `apps/server/src/scouts/pipeline.ts:269-295` | progress and tolerated rate limits before it have no effect on the outcome |
| `Ingest.CreatedIsKnown` | `apps/server/src/scouts/pipeline.ts:509-545` | a created loot was new to the library and is found by hash and by source ever after |
| `Ingest.OneLootPerSource` | `apps/server/src/scouts/pipeline.ts:431-448` | over any sequential history each (source, item id) creates at most one loot |
| `Ingest.OneLootPerPrimaryHash` | `apps/server/src/scouts/pipeline.ts:407-429` | over any sequential history no loot is created for a hashable primary file whose content an earlier created loot holds in any of its files |
| `Ingest.ReingestIsDeduped` | `apps/server/src/scouts/pipeline.ts:407-448` | an item ingested again resolves to a loot that carries its hash or its attribution |
| `Utf8.DecodeOfEncode` | `apps/server/src/scouts/filename-sanitize.ts:77-92` | UTF-8 round trip, with any bytes following |
| `Utf8.BytesSpellScalar` | `apps/server/src/scouts/filename-sanitize.ts:78-78` | each scalar is encoded by the table of section 3 of RFC 3629: lead byte, number of bytes, and bits |
| `Utf8.FittingIsLargest` | `apps/server/src/scouts/filename-sanitize.ts:63-76` | the number of scalars that fit is the largest whose boundary is within the limit, and everything fits if and only if the encoding does |
| `Utf8.StepBack` | `apps/server/src/scouts/filename-sanitize.ts:81-84` | the backward loop stops at the largest code-point boundary not above the limit, at most three bytes below it |
| `Utf8.TruncateToBytes` | `apps/server/src/scouts/filename-sanitize.ts:77-92` | the exact string returned, the extra step of line 89 included |
| `Utf8.DecodeOfStepTooFar` | `apps/server/src/scouts/filename-sanitize.ts:89-91` | one byte before a boundary the decoded prefix loses its last scalar, or ends in one replacement character in its place |
| `Utf8.CutKeepsAllThatFitsIff` | `apps/server/src/scouts/filename-sanitize.ts:89-89` | the result is the longest prefix that fits if and only if the first scalar cut off is a single byte, or nothing or everything fits, or the scalar spoilt is the replacement character itself |
| `Utf8.LimitExceededIff` | `apps/server/src/scouts/filename-sanitize.ts:89-91` | the result exceeds the limit, then by one byte, if and only if a multi-byte scalar starts at the limit after a two-byte one |
| `Utf8.CapIsBroken` | `apps/server/src/scouts/filename-sanitize.ts:53-58` | a name that comes out of the 255-byte cut with 256 bytes |
| `Links.NormalizeUrl` | `apps/server/src/scouts/link-resolver.ts:102-131` | the step-by-step normalisation of an http(s) URL, parsing and printing being parameters |
| `Links.DeleteKeys` | `apps/server/src/scouts/link-resolver.ts:118-123` | the deletion loop removes every pair with a listed key, and leaves the query's spelling alone if there is none |
| `Links.NormalizeIdempotent` | `apps/server/src/scouts/link-resolver.ts:92-131` | normalising twice is normalising once |
| `Links.NormalKeepsView` | `apps/server/src/scouts/link-resolver.ts:169-455` | normalisation changes nothing that any of the nine matchers looks at |
| `Links.NormalFormIsSameLink` | `apps/server/src/scouts/link-resolver.ts:486-516` | the normal form of a recognised link resolves to the same source and context |
| `Links.KeyResolvesToItself` | `apps/server/src/scouts/link-resolver.ts:535-541` | resolving a dedup key gives back the resolution it stands for |
| `Links.SameKeySameLink` | `apps/server/src/scouts/link-resolver.ts:535-541` | two links share a dedup key if and only if their resolutions are equal; a known and an unknown one never do |
| `Links.KnownHasHandle` | `apps/server/src/scouts/link-resolver.ts:169-455` | every recognised link has a non-empty id or, for old MEGA links, a fragment |
| `Links.SoundIsPossible` | `apps/server/src/scouts/link-resolver.ts:102-131` | the assumptions about parsing, printing and queries are consistent: a concrete small web meets them |
| `Links.Scan` | `apps/server/src/scouts/link-resolver.ts:518-545` | the scan lists every resolution once, in order of first appearance, and loses none |
| `LinkShapes.DriveIsExact` | `apps/server/src/scouts/link-resolver.ts:169-207` | Drive's four hosts: an open link by its query id, else the segment after the first "d" as a file with its resource key, else the one after the first "folders" as a folder; these and nothing else |
| `LinkShapes.MegaIsExact` | `apps/server/src/scouts/link-resolver.ts:217-246` | MEGA's two hosts: an old link by its fragment, else the segment after "folder" or "file" with the fragment; these and nothing else |
| `LinkShapes.MyMiniFactoryIsExact` | `apps/server/src/scouts/link-resolver.ts:255-285` | an object by the number at the end of its last segment or by that segment, a collection by its name; these and nothing else |
| `LinkShapes.Cults3DIsExact` | `apps/server/src/scouts/link-resolver.ts:294-310` | a model by the segment after the first "3d-model"; nothing else |
| `LinkShapes.ThingiverseIsExact` | `apps/server/src/scouts/link-resolver.ts:319-333` | a thing by the digits of the first segment of the form thing:digits; nothing else |
| `LinkShapes.NumberedAreExact` | `apps/server/src/scouts/link-resolver.ts:343-389` | Printables and MakerWorld models by the digits that the segment after the first "model" or "models" starts with; nothing else |
| `LinkShapes.SketchfabIsExact` | `apps/server/src/scouts/link-resolver.ts:398-422` | a model by the 32 hex digits at the end of its segment, in lower case, or by the segment; nothing else |
| `LinkShapes.PatreonIsExact` | `apps/server/src/scouts/link-resolver.ts:431-455` | a post by the number at its end or by its segment, a single segment as a creator; nothing else |
| `LinkShapes.NumericSuffixIs` | `apps/server/src/scouts/link-resolver.ts:264-273` | the numeric suffix is the digits after a hyphen at the end, all of them |
| `LinkShapes.HexSuffixIs` | `apps/server/src/scouts/link-resolver.ts:405-411` | the hex suffix is the 32 hex digits after a hyphen at the end, in lower case |
| `LinkShapes.LeadingDigitsIs` | `apps/server/src/scouts/link-resolver.ts:352-357` | the leading number is the digits at the start, as many as there are |
| `LinkShapes.PartsAre` | `apps/server/src/scouts/link-resolver.ts:173-173` | a slash separates segments, a text without one is a segment, empty ones do not count |
| `LinkShapes.GetIs` | `apps/server/src/scouts/link-resolver.ts:175-193` | a query parameter has its first value, and none if it does not occur |
| `LinkShapes.ResolveIs` | `apps/server/src/scouts/link-resolver.ts:486-516` | a text resolves to the first of the nine sources that claims its URL and to what that source reads; it is unknown if none does |
| `LinkShapes.NormalIs` | `apps/server/src/scouts/link-resolver.ts:102-131` | the normal form has no credentials, no slash at the end of its path and none of the tracking keys; other keys keep their values, the query its spelling if nothing is dropped, and everything else is as it was |
| `LinkShapes.TrackingIs` | `apps/server/src/scouts/link-resolver.ts:78-90` | the eleven tracking keys |
| `LinkShapes.DriveFileResolves` | `apps/server/src/scouts/link-resolver.ts:183-194` | the view page of a Drive file resolves to that file's id and resource key |
| `Paging.PageIsPrefix` | `apps/server/src/materials/catalog.ts:666-676` | a page is the beginning of what is wanted; a cursor, its last id, is due exactly when something is left over, and that id is non-empty if and only if the request is not stuck at an empty id |
| `Paging.PageIs` | `apps/server/src/materials/catalog.ts:633-676` | a page has the first rows, up to the limit, that pass the filter and lie beyond the cursor; it has a cursor, its last id, if and only if such rows are left over, except that the agent and job lists drop an empty one |
| `Paging.LexLessIs` | `apps/server/src/materials/catalog.ts:643-654` | one id is below another if and only if they agree up to a place where the first ends or has the smaller character |
| `Paging.FollowIsIncreasingIff` | `apps/server/src/forge/agents.ts:320-346` | under arbitrary inserts and deletes between pages ids increase strictly, so no row comes twice, if and only if the walk does not begin by returning an empty id, starting over and meeting an empty id again |
| `Paging.FollowIsCompleteIff` | `apps/server/src/forge/dispatch-jobs.ts:217-242` | under arbitrary inserts and deletes, when the last page is reached an id present throughout has been returned if and only if the walk was not cut short after an empty id by a list that drops empty cursors |
| `Paging.FollowIsSound` | `apps/server/src/materials/catalog.ts:666-676` | every returned row passes the filter and was in one of the tables |
| `Paging.UnchangingTableIff` | `apps/server/src/materials/catalog.ts:633-676` | on an unchanging table the walk ends with exactly the filtered sorted list if and only if no page of one row ends in an empty id with more to come |
| `Paging.FilamentListEndsIff` | `apps/server/src/materials/catalog.ts:602-605` | the same for the filament list under any requested limit |
| `Paging.StuckWalk` | `apps/server/src/materials/catalog.ts:648-654` | in the excluded case the filament walk repeats its first row for ever, the other two stop after it |
| `Paging.StuckTable` | `apps/server/src/materials/catalog.ts:648-654` | a two-row table in the excluded case |
| `Paging.StuckIff` | `apps/server/src/materials/catalog.ts:648-654` | the excluded case in plain words: one row at a time, a kept row with an empty id and another kept row |
| `Paging.WalkReturnsKept` | `apps/server/src/materials/catalog.ts:633-676` | otherwise the walk over an unchanging table ends with exactly the rows that pass the filter, in order of id |
| `Paging.FilamentLimitIs` | `apps/server/src/materials/catalog.ts:602-605` | fifty rows unless asked otherwise, else the nearest number from 1 to 200 |
| `SeedImport.Importer.CreateProduct` | `apps/server/src/materials/catalog.ts:897-986` | result and table of product creation: replay, id conflict, insert |
| `SeedImport.Importer.UpdateProduct` | `apps/server/src/materials/catalog.ts:1006-1092` | result and table of a full patch, with the ownership guard |
| `SeedImport.Importer.ApplyOne` | `apps/server/src/scripts/import-resin-seed.ts:239-301` | one product changes the table and exactly one counter as specified |
| `SeedImport.Importer.RunImport` | `apps/server/src/scripts/import-resin-seed.ts:307-380` | the nested loops leave the fold over all considered products; the counters count its outcomes and sum to the products considered |
| `SeedImport.CountersSum` | `apps/server/src/scripts/import-resin-seed.ts:142-151` | each considered product is counted in exactly one outcome counter |
| `SeedImport.FirstBodyWins` | `apps/server/src/scripts/import-resin-seed.ts:257-295` | default mode: existing rows stay, the first valid body per new id wins |
| `SeedImport.LastBodyWins` | `apps/server/src/scripts/import-resin-seed.ts:257-292` | update mode: the last valid body per id wins, in the existing row if the importer may change it |
| `SeedImport.ImportIdempotent` | `apps/server/src/scripts/import-resin-seed.ts:307-380` | applying the same payloads again leaves the same table in every mode, whatever ids collide |
| `SeedImport.RunTwiceIsRunOnce` | `apps/server/src/scripts/import-resin-seed.ts:307-380` | the same for the seed files themselves |
| `SeedImport.OthersKeepTheirRows` | `apps/server/src/materials/catalog.ts:138-156` | rows of other users survive every import unchanged |
| `SeedImport.TransformedIsValidIff` | `apps/server/src/scripts/_resin-seed-transform.ts:259-315` | a transformed product passes creation's validation if and only if it has at most four usable colours and its subtype is no inherited key |
| `SeedRules.InputJudged` | `apps/server/src/materials/catalog.ts:897-925` | creation is refused for the first broken rule: brand, source, subtype, material class, the four ownership rules, number and form of the colours |
| `SeedRules.InputFitsIff` | `apps/server/src/materials/catalog.ts:897-925` | creation's validation passes if and only if brand, the listed subtypes, classes and sources, ownership and at most four strict hex colours are as asked |
| `SeedRules.PatchJudged` | `apps/server/src/materials/catalog.ts:1030-1060` | a patch is refused for the first broken rule, the brand last |
| `SeedRules.UpdateIs` | `apps/server/src/materials/catalog.ts:1006-1092` | an update succeeds if and only if the row exists, the actor is its owner, or an admin for a system row, and the patch is valid; the row keeps owner and source; each refusal has its reason |
| `SeedRules.ApplyIs` | `apps/server/src/scripts/import-resin-seed.ts:239-301` | one product in every mode: refused, inserted, a replay exactly for the same content up to letter case of colours, skipped, or updated where the actor may change the row; table and counter |
| `SeedRules.TransformOneIs` | `apps/server/src/scripts/_resin-seed-transform.ts:259-315` | a product becomes a community entry without owner under its own id or one made of brand, line and colour name, or subtype without one; usable colours and known classes only; refused exactly for its shape or an unknown subtype |
| `SeedRules.TransformIs` | `apps/server/src/scripts/_resin-seed-transform.ts:226-257` | the products of a file are taken one by one, and all refused without a usable brand |
| `SeedRules.BuildIdEqualIff` | `apps/server/src/scripts/_resin-seed-transform.ts:187-198` | made-up ids are equal if and only if brand, line and seed have the same slugs, slugs having no colon |
| `SeedRules.KnownSubtypeIsKept` | `apps/server/src/scripts/_resin-seed-transform.ts:124-141` | a subtype the catalog knows is kept, and every name the transform yields is one |
| `SeedRules.MatchingAre` | `apps/server/src/scripts/import-resin-seed.ts:322-328` | the files imported are all, or those with the asked stem up to letter case |
| `ClaimLoop.RunClaim` | `apps/courier/internal/agent/claim.go:46-89` | the k-th poll without a job since the last claim is followed by the base doubled k times, each time capped; a claim by no pause |
| `ClaimLoop.ClosedFormIff` | `apps/courier/internal/agent/claim.go:65-74` | the pauses are min(base·2^k, 60 s) for all k ≥ 1 if and only if base is below 2^62 ns; above it the first doubling wraps to a negative duration |
| `ClaimLoop.DoubledIsPower` | `apps/courier/internal/agent/claim.go:65-74` | k doublings are a multiplication by 2^k |
| `ClaimLoop.NeverShorterIff` | `apps/courier/internal/agent/claim.go:47-74` | a streak never shortens the pause if and only if the base is within the 60 s cap |
| `ClaimLoop.PausesOfInterval` | `apps/courier/internal/agent/claim.go:37-42` | for every configured interval up to a minute, the default included, the closed form holds from the first pause on |
| `ClaimLoop.PausesAre` | `apps/courier/internal/agent/claim.go:37-89` | for intervals of up to a minute: after n polls in a row without a job one more is followed by min(interval·2^n, 60 s), a claim by no pause |
| `RateLimit.TotalWaitBeforeGivingUp` | `apps/server/src/scouts/rate-limit.ts:96-128` | without server hints the total wait is at most (1+jitter)·base·(2^(n−1)−1) and at most (n−1)·max·(1+jitter), however many attempts fail |
| `RateLimit.DelayBounds` | `apps/server/src/scouts/rate-limit.ts:120-125` | every delay lies within the jitter of its capped exponential value |
| `RateLimit.HintedDelayBounds` | `apps/server/src/scouts/rate-limit.ts:115-119` | with a server hint the maximum is strict |
| `RateLimit.DelayIs` | `apps/server/src/scouts/rate-limit.ts:96-128` | the middle of the random range gives the exponential delay, its start the least one; the first is the base, each further one twice the one before, up to the maximum; a hint takes their place |
| `RateLimit.DefaultDelays` | `apps/server/src/scouts/rate-limit.ts:31-46` | with the default settings the delays are 1, 2, … 16 seconds in the middle of the random range, thirty per cent less at its start, and a minute for any longer hint |
| `RateLimit.RetriedIff` | `apps/server/src/scouts/rate-limit.ts:101-112` | exactly attempts 1 to maxAttempts − 1 are retried; smaller numbers are refused |
| `RateLimit.DefaultTotalWait` | `apps/server/src/scouts/rate-limit.ts:36-40` | the default of six attempts means five waits of together at most 40.3 s, not the six waits up to 32 s of the comment |

## Left out

- Next.js plumbing, workers, the browser extension, logging: no state of their own that the properties need.
- HTTP routes. Some of them delete rows that an operation has committed, after losing a race for an idempotency key
  (`app/api/v1/materials/route.ts:233`, `app/api/v1/materials/recycle-events/route.ts:181-186`,
  `app/api/v1/materials/mix-batches/route.ts:189-192`), and deleting a user cascades to the user's rows.
- MaterialRuns.RunKeeps: excludes these deletions; a deleted batch would leave its draws and its event behind.
- Outcomes.ReportsReconcile: excludes them too, and speaks of the materials that exist.
- Access control tables, compatibility tables and thin create-read-update-delete code: they would add only easy members.
- Cryptography, hashing, JSON, base64 and URL parsing: parameters. `Links` assumes that a printed URL parses back, that a
  written query reads back, and that removing credentials, rewriting the query or dropping trailing slashes leaves a URL.
- Floating-point rounding and non-finite numbers: amounts are real. Letter case is mapped for ASCII only.
- `persistLedgerEventInTx` appends or throws; `applySingleCandidate` creates a loot with the hashes of all its files, or
  refuses, or throws without creating one. Neither is part of this model.
- Materials: recipes (`createMixRecipe`) and catalog resolution (`resolveCatalogProduct`) enter only as the recipe table;
  columns that no rule reads (names, densities, purchase data, notes, timestamps of retirement) are not modelled.
- MaterialStore.Inventory.HandleMaterialConsumed: says what an uninterrupted call reports; under concurrency the recorded
  new amount comes from the earlier read and need not match the row, and nothing is claimed of it.
- MaterialStock.OnlyConsumptionGoesNegative: sequential runs only; `MaterialStock.InterleavedCallsOverdrawIff` says
  when interleaved calls overdraw a source.
- Reports: the locale order of the row keys is a parameter, any total order. A recycle input without a weight or class
  cannot occur in a row the recycle operation wrote and is not modelled.
- Dispatch: the owner, target, creation checks of `createDispatchJob`, the runtime check of the failure reason (a typed
  value here), the separate read of `explainMiss` as a step of its own, and the deletion of job rows.
- Dispatch.RunKeepsRows: requires jobs to be created in a state before the claim; `createDispatchJob` accepts any state,
  and `Dispatch.NewJobShapeIff` shows that the others break the row shape at once.
- Pairing: fresh secrets never equal a stored one; a key row stands for the one secret it verifies; faults happen before a
  statement commits, not after. Names, reachability and the token's expiry are not modelled; keys are revoked, never deleted, as in the code. The guards of `deleteAgent`
  are dropped, so more deletions are allowed than the code allows.
- Pairing.OneShot: runs without agent deletion; `Pairing.SuccessesAreRows` counts what deletions add.
- Ingest: two pipelines at work on the same library at once, token refresh, progress messages, detail texts beyond their
  kind, the staging directory's contents. A file that cannot be hashed gets the all-zero hash, as in the code, and
  `Ingest.OneLootPerPrimaryHash` excludes it as a newcomer.
- Ingest.OneLootPerSource: requires that the attribution inserts work; a lost one leaves nothing to find.
- Links: finding the URLs in a text (the regular expression and the trimming of punctuation), and URLs of other schemes.
- Utf8: strings with unpaired surrogates; the other steps of `sanitizeFilename`.
- Paging: limits below one, which the agent and job lists do not clamp; the other filters are one arbitrary predicate.
- SeedImport: database faults during an import, the license file, reading the seed directory, the alias table of brands and
  the slug function (parameters), timestamps.
- ClaimLoop: downloading, verifying and handling a claimed job; cancellation ends the list of polls.
