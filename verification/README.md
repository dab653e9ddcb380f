# ElectronIx MES: a verified model of its core behaviour

This project models, in Dafny, the parts of the ElectronIx manufacturing execution system whose
correctness is a property of whole inputs or whole runs, and proves what the system promises
about them. Database tables are sequences, sets or maps; one database transaction is one atomic step;
time is an integer count of microseconds; ratios are `real`. A component that rewrites tables is a
class whose methods are proved against a function on table values, and the results about runs are
lemmas about those functions.

`dafny verify dfyconfig.toml` checks everything. There is one module per file.

| module | component |
|---|---|
| `Timeline`, `StateMachine`, `PlannedStops`, `BoundarySplit` | pulses to machine states, planned-stop overlay, boundary split |
| `DerivedStore` | the stored states and downtime events: recompute, classify, split |
| `Oee`, `ShiftSlicing` | both OEE paths over stored states, the per-shift breakdown |
| `SyncDb`, `SyncProtocol` | outbox, idempotent apply, the edge/cloud protocol over a lossy network |
| `SyncOrder`, `SyncDrain`, `SyncCommands` | the order in which entries are claimed, and exactly when an entry, an outbox or a command can still get through |
| `Genealogy` | depth-bounded lot and serial traces |
| `QualityHolds` | inspections, nonconformances, holds and material issue |
| `Spares` | spares ledger, reorder requests, export to the ERP |
| `Pareto`, `FieldMapping`, `Redaction` | downtime ranking, ERP field mapping, diagnostics redaction and ring buffer |
| `Prelude`, `Sorting`, `Json` | shared definitions |

A timeline is observed through the state at each instant and through its seams (instants where two
touching intervals of one state meet). `TimelineExtensionality` shows that the two observations fix the
list, so pointwise specifications such as `IsRaw` and `IsOverlay` describe exactly one output
list; uniqueness, permutation and idempotence theorems follow from that.

Where the code does not do what a reader of its comments would expect, the model follows the code, a
lemma gives a concrete failing input, and another states exactly when the expectation holds:

| expectation | fails on | holds exactly when |
|---|---|---|
| the two OEE paths agree within 0.1 % | `TwoPathsDisagree` | `PathsAgreeIff` |
| a recompute only changes states in its window | `StraddlerLost` | `OutsideKeptIff` |
| a recompute only changes downtime in its window | `DowntimeLost` | `DowntimeOutsideKeptIff` |
| downtime events of a work center never overlap | `OverlappingEventsReachable` | `DowntimeApartIff` |
| shift slices cover all scheduled time of the window | `EarlierOvernightMissed` | `NothingMissedIff` |
| cutting at boundaries leaves no empty piece | `RepeatedBoundaryLeavesEmpty` | `SplitAtBoundaries` |
| a trace finds everything reachable | `TraceMissesDeep` | `TraceCompleteIff` |
| a failed inspection holds its material | `CollidingNcrLeavesLotFree` | `FailHoldsIff` |
| a hold on a lot keeps its serials from being issued | `SerialOfHeldLotIssued` | `LotHoldReachesSerialsIff` |
| a request reaches the ERP once | `PushedTwiceReachable` | `PushedTwiceIff` |
| an edge's outbox can always be drained | `BlockedIsReachable` | `DrainableIff`, per entry `ClaimableIff` |
| a command always reaches its plant | `RefusedIsReachable` | `ApplicableIff` |
| a bare field mapping parses as written | `BareFieldsRefused` | `BareRoundTripIff` |
| export then import gives the record back | `CollidingExportLoses` | `ExportImportIff`, `ExportImportAlwaysIff` |

## Model

| member | source | states |
|---|---|---|
| `Timeline.TimelineExtensionality` | crates/mes-core/src/state_machine.rs:71-83 | two interval lists with the same state at every instant and the same seams are the same list |
| `StateMachine.Debounce` | crates/mes-core/src/state_machine.rs:124-134 | the loop computes `Debounced` |
| `StateMachine.DebounceMeaning` | crates/mes-core/src/state_machine.rs:121-134 | for pulses in any order: kept pulses come from the input, start with its first, ascend and are spaced by the debounce gap |
| `StateMachine.DebouncePrefix` | crates/mes-core/src/state_machine.rs:124-134 | what was kept stays kept: the result for the first pulses is a prefix of the result |
| `StateMachine.DebounceDrops` | crates/mes-core/src/state_machine.rs:124-134 | a pulse is dropped iff it comes before the last one kept so far or less than the gap after it; otherwise it is the next one kept |
| `StateMachine.DebounceAscending` | crates/mes-core/src/state_machine.rs:124-134 | for ascending pulses each is kept or follows a kept one within the gap |
| `StateMachine.DebounceIdempotent` | crates/mes-core/src/state_machine.rs:121-134 | debouncing twice is debouncing once |
| `StateMachine.ComputeStates` | crates/mes-core/src/state_machine.rs:138-204 | the coalescing walk refines the naive per-gap reading: the same state at every instant, and a seam exactly at marks inside a stop |
| `StateMachine.NaiveAtGap` | crates/mes-core/src/state_machine.rs:138-204 | the naive reading gives an instant the state of the one gap between neighbouring marks that holds it |
| `StateMachine.NaiveAtTiles` | crates/mes-core/src/state_machine.rs:138-204 | the gaps tile the stretch from the first mark to the last |
| `StateMachine.RawTiles` | crates/mes-core/src/state_machine.rs:136-204 | the raw timeline is sorted, non-overlapping, without empty pieces, covers exactly the window, and shows no planned stop |
| `StateMachine.RawMeaning` | crates/mes-core/src/state_machine.rs:103-204 | with a pulse, an instant is Running iff its gap is at most the micro-stop threshold, else MicroStop up to the down threshold and Down beyond |
| `StateMachine.RawIdle` | crates/mes-core/src/state_machine.rs:145-153 | without pulses the whole window is one stop, MicroStop or Down by its length |
| `StateMachine.RunningMaximal` | crates/mes-core/src/state_machine.rs:138-204 | no two Running pieces touch |
| `StateMachine.RawUnique` | crates/mes-core/src/state_machine.rs:138-204 | a window's pulses determine the raw interval list |
| `PlannedStops.LayCut` | crates/mes-core/src/state_machine.rs:227-250 | laying one overlap (with the in-place extension of the last output) keeps the overlay correct up to the new cursor |
| `PlannedStops.OverlayInterval` | crates/mes-core/src/state_machine.rs:215-256 | one pass of the outer loop extends the overlay by one whole interval |
| `PlannedStops.ApplyPlannedStops` | crates/mes-core/src/state_machine.rs:208-258 | for any planned list (unsorted, nested, touching, empty, inverted): the same instants, PlannedStop exactly where covered, every other state kept, planned pieces merged |
| `PlannedStops.OverlayCanonical` | crates/mes-core/src/state_machine.rs:208-258 | planned lists that cover the same instants give the identical output list |
| `PlannedStops.OverlayPermutation` | crates/mes-core/src/state_machine.rs:208-258 | permuting the planned list changes nothing |
| `PlannedStops.OverlayAbsorbs` | crates/mes-core/src/state_machine.rs:208-258 | adding intervals already covered changes nothing |
| `PlannedStops.OverlayIdempotent` | crates/mes-core/src/state_machine.rs:208-258 | laying the same planned list over its own result changes nothing |
| `PlannedStops.PlannedPiecesApart` | crates/mes-core/src/state_machine.rs:238-249 | no two touching planned pieces remain, across input intervals too |
| `BoundarySplit.SplitAtBoundaries` | crates/mes-core/src/state_machine.rs:262-290 | every instant keeps its state, pieces stay in order, none straddles a boundary, every cut is at a listed boundary and there is one for each listing inside an interval, and an empty piece appears iff an interval strictly contains a boundary listed twice |
| `BoundarySplit.SplitMeaning` | crates/mes-core/src/state_machine.rs:268-287 | the same for the pieces of one interval, whatever was written before |
| `BoundarySplit.RepeatedBoundaryLeavesEmpty` | crates/mes-core/src/state_machine.rs:268-287 | cutting Running 0..10 at 5 and 5 gives three pieces, one of them empty |
| `DerivedStore.Store.ReplaceDerived` | crates/mes-db/src/repo_ingest.rs:197-262 | the delete and insert loops amount to one atomic step; inserting for an unknown work center is refused and changes nothing |
| `DerivedStore.Store.RecomputeStates` | crates/mes-edge/src/process.rs:16-34 | the two fetches and the composed stages are one `Recompute` step on the fetched signals, refused iff the work center is unknown and the window has any length; the returned counts are the rows written |
| `DerivedStore.FetchPulses` | crates/mes-db/src/repo_ingest.rs:130-148 | exactly the timestamps of the work center's cycle events inside the window, ascending, one for each event |
| `DerivedStore.FetchPlanned` | crates/mes-db/src/repo_ingest.rs:172-193 | exactly the work center's planned stops that overlap the window |
| `DerivedStore.Store.ClassifyDowntime` | crates/mes-db/src/repo_orders.rs:355-374 | exactly the named event gets reason, user and time; refused, with nothing changed, iff there is no such event, reason or user |
| `DerivedStore.Store.SplitDowntime` | crates/mes-db/src/repo_orders.rs:378-441 | succeeds iff the point is strictly inside a known event and the given reasons and user exist; the halves touch there, keep work center and state, and carry the first and the second reason with their own stamps; otherwise nothing changes |
| `DerivedStore.DerivedMeaning` | crates/mes-edge/src/process.rs:16-34 | the derived timeline tiles the window and is PlannedStop exactly where planned |
| `DerivedStore.DerivedUnique` | crates/mes-edge/src/process.rs:16-34 | pulses and planned stops determine the derived list |
| `DerivedStore.FetchPlannedComplete` | crates/mes-db/src/repo_ingest.rs:172-193 | fetching only the overlapping planned stops gives the same list as the work center's whole planned table |
| `DerivedStore.StopsMeaning` | crates/mes-core/src/state_machine.rs:293-304 | downtime events are exactly the MicroStop and Down intervals of a timeline |
| `DerivedStore.OverlapMeans` | crates/mes-db/src/repo_ingest.rs:207-258 | the deletes' overlap test holds iff row and window share an instant |
| `DerivedStore.StepKeepsConsistent` | crates/mes-db/src/repo_ingest.rs:197-262 | recompute, classify and split keep stored states of a work center non-overlapping and non-empty, and downtime ids distinct |
| `DerivedStore.RunConsistent` | crates/mes-db/src/repo_ingest.rs:197-262 | the same in every state of every run |
| `DerivedStore.RecomputeWindowExact` | crates/mes-db/src/repo_ingest.rs:207-232 | after a recompute the rows overlapping the window are exactly the derived ones, and all other rows are untouched |
| `DerivedStore.RecomputeDowntimeExact` | crates/mes-db/src/repo_ingest.rs:234-258 | after a recompute the work center's unclassified events overlapping the window are exactly the derived stops, and all other events are untouched |
| `DerivedStore.RecomputeKeepsClassified` | crates/mes-db/src/repo_ingest.rs:234-258 | classified events, other work centers' events and events outside survive a recompute verbatim |
| `DerivedStore.RecomputesKeepClassified` | crates/mes-db/src/repo_ingest.rs:234-258 | the same over any stretch of recomputes in any run |
| `DerivedStore.ClassifiedStopCopied` | crates/mes-db/src/repo_ingest.rs:234-258 | a classified event of the work center that is still a derived stop gets an unclassified copy on the same span |
| `DerivedStore.OverlappingEventsReachable` | crates/mes-db/src/repo_ingest.rs:234-258 | the run recompute, classify, recompute ends with two overlapping events of one work center |
| `DerivedStore.DowntimeApartIff` | crates/mes-db/src/repo_ingest.rs:234-258 | non-overlapping events stay so iff no classified event overlaps a derived stop |
| `DerivedStore.DowntimeOutsideKeptIff` | crates/mes-db/src/repo_ingest.rs:234-258 | on any store: downtime outside the window is unchanged iff every unclassified event that straddles its edge is backed there by an event that stays |
| `DerivedStore.DowntimeOutsideKeptApart` | crates/mes-db/src/repo_ingest.rs:234-258 | where events do not overlap, iff no unclassified event straddles the edge |
| `DerivedStore.DowntimeLost` | crates/mes-db/src/repo_ingest.rs:234-258 | recomputing an idle window and then its second half loses the first half's downtime |
| `DerivedStore.RecomputeTwice` | crates/mes-edge/src/process.rs:16-34 | an immediate second recompute changes nothing but ids |
| `DerivedStore.SplitConserves` | crates/mes-db/src/repo_orders.rs:355-441 | split and classify conserve every work center's total downtime |
| `Oee.TimeInAdds` | crates/mes-db/src/repo_oee.rs:83-91 | clamped time in a state is additive over adjacent windows |
| `Oee.TimeInMeasures` | crates/mes-db/src/repo_oee.rs:83-91 | the clamped sum equals the number of instants of the window spent in the state |
| `Oee.TimeInAnyBound` | crates/mes-db/src/repo_oee.rs:83-91 | all states together never exceed the window |
| `Oee.InvertedWindow` | crates/mes-db/src/repo_oee.rs:83-91 | in an inverted window a state's sum lies between the negative window length and zero |
| `Oee.CountsAdd` | crates/mes-db/src/repo_oee.rs:92-97 | good and total counts are additive over adjacent windows |
| `Oee.CountsMeasure` | crates/mes-db/src/repo_oee.rs:92-97 | good is the good, and total less good the scrap, of exactly the work center's rows in the half-open window |
| `Oee.QualityOneIff` | crates/mes-db/src/repo_oee.rs:92-118 | quality is 1 iff no row of the work center in the window has scrap |
| `Oee.OneRowQuality` | crates/mes-db/src/repo_oee.rs:92-118 | one row of g good and s scrap parts has quality g / (g + s) |
| `Oee.AvailabilityMeasured` | crates/mes-db/src/repo_oee.rs:82-118 | availability is the share of unplanned instants in which the work center runs |
| `Oee.QualityMeasured` | crates/mes-db/src/repo_oee.rs:92-118 | quality is the share of good parts among those counted |
| `Oee.PerformanceMeasured` | crates/mes-db/src/repo_oee.rs:82-118 | performance is the ideal time of all counted parts per run time, at most 1 |
| `Oee.OeeSqlBounded` | crates/mes-db/src/repo_oee.rs:76-130 | availability, performance, quality and OEE lie in [0,1] for any window, inverted ones included |
| `Oee.RunOeeBounded` | crates/mes-db/src/repo_oee.rs:76-130 | the same on every store that a run of recomputes, classifications and splits reaches |
| `Oee.OeeIsEffectiveTime` | crates/mes-core/src/oee.rs:45-55 | OEE times planned production time is the ideal time of the good parts, or, when parts come faster than ideal, the good share of the run time |
| `Oee.RecomputedStates` | crates/mes-db/src/repo_ingest.rs:207-232 | after a recompute an instant in the window has the derived state; any other keeps its state unless its row reached into the window |
| `Oee.RecomputedRunTime` | crates/mes-db/src/repo_oee.rs:83-91 | end to end: after a recompute of a known work center the window's run time is the number of its instants that lie in a short gap between kept pulses and in no planned stop |
| `Oee.RecomputedGap` | crates/mes-edge/src/process.rs:16-34 | after a recompute an unplanned instant is stored as Running, MicroStop or Down by its gap between pulses debounced by 2 s: up to 60 s, up to 300 s, beyond |
| `Oee.OutsideKeptIff` | crates/mes-db/src/repo_ingest.rs:207-232 | states outside the window are unchanged iff no stored row straddles its edge |
| `Oee.StraddlerLost` | crates/mes-db/src/repo_ingest.rs:207-232 | a concrete recompute that loses time outside its window |
| `Oee.PathsAgreeIff` | crates/mes-db/src/repo_oee.rs:26-130 | for a window and its planned time: availability agrees within 0.001 on all sound data iff there is no production time or it exceeds 1001 times the sub-millisecond part of the window; the same for OEE |
| `Oee.TwoPathsAgree` | crates/mes-core/src/oee.rs:35-55 | with at least 1 s of planned production: equal performance and quality, availability and OEE less than 0.001 apart |
| `Oee.TwoPathsDisagree` | crates/mes-db/src/repo_oee.rs:26-73 | a 1.5 ms window: availability 1.5 on one path and 1.0 on the other |
| `ShiftSlicing.OeeByShift` | crates/mes-db/src/repo_oee.rs:144-190 | for any shifts, overlapping or not: exactly one slice for each occurrence, from the first day on, that meets the window, being all the window holds of it, named after its shift, with that slice's OEE, in order of day and shift; disjoint shifts give disjoint slices in time order; the day loop ends |
| `ShiftSlicing.SlicesCover` | crates/mes-db/src/repo_oee.rs:144-190 | the slices cover exactly the window's instants in an occurrence that starts on or after its first day |
| `ShiftSlicing.AroundTheClock` | crates/mes-db/src/repo_oee.rs:150-160 | shifts disjoint on the 24-hour circle, sorted by start, follow one another, the overnight one wrapping before the first |
| `ShiftSlicing.NothingMissedIff` | crates/mes-db/src/repo_oee.rs:167-176 | for any shifts: no scheduled instant is missed iff what the window holds of the day before's occurrences lies in later ones too |
| `ShiftSlicing.NothingMissedDisjoint` | crates/mes-db/src/repo_oee.rs:167-176 | for disjoint shifts: iff every shift's occurrence of the day before is over at the window's start |
| `ShiftSlicing.EarlierOvernightMissed` | crates/mes-db/src/repo_oee.rs:167-176 | a 22:00 to 06:00 shift at 02:00 of the first day is in no slice |
| `SyncDb.ApplyClaims` | crates/mes-db/src/repo_sync.rs:197-224 | a successful apply claims exactly its id, does nothing on a replay, and never touches the outbox |
| `SyncDb.ApplyMeaning` | crates/mes-db/src/repo_sync.rs:155-224 | a first apply goes through iff no other order has the number and, for a new order, part and routing exist; a new order gets every payload column and the plant, an existing one keeps part and routing, takes the rest, and keeps its plant unless one is given; no other order changes |
| `SyncDb.ApplyOthers` | crates/mes-db/src/repo_sync.rs:155-224 | other aggregates are claimed and change no order; a malformed order is refused |
| `SyncDb.FetchMeaning` | crates/mes-db/src/repo_sync.rs:104-117 | a fetch returns at most the limit, only unsynced cloud-bound entries, and all of them if the limit allows; a pull does the same for its plant |
| `SyncDb.DeliverClaims` | crates/mes-db/src/repo_sync.rs:227-242 | a batch without error claims exactly its ids, and applied plus skipped is its length |
| `SyncDb.DeliverCounts` | crates/mes-db/src/repo_sync.rs:227-242 | the applied counter equals the growth of the ledger, after an error too |
| `SyncDb.RepeatsFold` | crates/mes-db/src/repo_sync.rs:197-242 | repeated deliveries end in the state that the first delivery of each id alone reaches |
| `SyncDb.AppliedOnce` | crates/mes-db/src/repo_sync.rs:197-242 | each id counts as applied exactly once in total |
| `SyncDb.RetryResumes` | crates/mes-db/src/repo_sync.rs:227-242 | a batch failing at entry k keeps its prefix; a retry skips it and meets entry k in the same database |
| `SyncDb.Store.ApplyOne` | crates/mes-db/src/repo_sync.rs:155-224 | claim and upsert commit together or roll back together |
| `SyncDb.Store.ApplyBatch` | crates/mes-db/src/repo_sync.rs:227-242 | the counting loop delivers in order and stops at the first error |
| `SyncDb.Store.Mark` | crates/mes-db/src/repo_sync.rs:119-130 | exactly the named rows become synced and nothing else changes; none of them is fetched or pulled again |
| `SyncDb.Store.CreateWorkOrder` | crates/mes-db/src/repo_orders.rs:110-173 | order, operations and outbox row appear together, iff id and number are free, part, routing, routing operations and work centers exist and operation numbers differ; otherwise nothing changes |
| `SyncDb.CreateMeaning` | crates/mes-db/src/repo_orders.rs:110-173 | when a creation is possible, and every column, operation and outbox field it writes |
| `SyncProtocol.FirstApplyInserts` | crates/mes-db/src/repo_sync.rs:155-224 | the first apply of a genuine entry inserts exactly its order, tagged |
| `SyncProtocol.FirstApplyIff` | crates/mes-db/src/repo_sync.rs:155-224 | that apply goes through iff no order has the number and part and routing are known |
| `SyncProtocol.StepKeepsInv` | crates/mes-cloud/src/sync.rs:155-212 | every step of every interleaving with lost, duplicated and reordered messages keeps the protocol invariant |
| `SyncProtocol.RunInv` | crates/mes-cloud/src/sync.rs:155-212 | the invariant holds in every state of every run |
| `SyncProtocol.SyncedMeansClaimed` | crates/mes-db/src/repo_sync.rs:104-130 | an entry marked synced is already claimed by the cloud |
| `SyncProtocol.DrainedMeansConverged` | crates/mes-db/src/repo_orders.rs:110-173 | once an edge's outbox is drained, every order it created is in the cloud's table, column by column as its entry says, with that plant's tag |
| `SyncProtocol.EdgeBirth` | crates/mes-db/src/repo_orders.rs:110-173 | an accepted creation at an edge puts every column there as ordered, priority 100 by default, as a draft |
| `SyncProtocol.OrderedMeansConverged` | crates/mes-db/src/repo_orders.rs:110-173 | from the input of the create call to the cloud's row: once that edge is drained every column is as ordered, a draft, with the plant's tag |
| `SyncProtocol.AckedMeansApplied` | crates/mes-db/src/repo_sync.rs:363-430 | every acknowledged command has been applied at its own plant, where the order is column by column as its entry says, up to local status |
| `SyncProtocol.CommandedMeansReceived` | crates/mes-db/src/repo_sync.rs:385-430 | from the input of the remote order to the plant's row: once acknowledged every column is as ordered |
| `SyncProtocol.TagsAreTruthful` | crates/mes-cloud/src/sync.rs:155-181 | an order in the cloud's table carries the tag of the plant it belongs to, at all times |
| `SyncProtocol.CloudOrdersStable` | crates/mes-db/src/repo_sync.rs:197-242 | an order in the cloud's table never changes again, whatever is redelivered |
| `SyncOrder.StepKeepsOrder` | crates/mes-cloud/src/sync.rs:155-181 | every step keeps the order invariant: pushes and handlers skip nothing unclaimed |
| `SyncOrder.ClaimedIsPrefix` | crates/mes-db/src/repo_sync.rs:104-242 | in every state of every run, the claimed entries of an edge are a prefix of its outbox: no entry overtakes an earlier one |
| `SyncDrain.RunNumbered` | crates/mes-db/migrations/0004_m3_work_orders.sql:3-16 | order numbers are unique at every edge and orders stay as created up to their status, in every state of every run |
| `SyncDrain.TablesConverge` | crates/mes-db/src/repo_sync.rs:155-242 | once an edge is drained, the cloud's row of each order it created is the edge's own row, tagged, with the status it was created with |
| `SyncDrain.Exchange` | crates/mes-cloud/src/sync.rs:155-181 | one undisturbed fetch, push, apply, reply, mark of a free entry claims it, inserts its order and marks its row |
| `SyncDrain.ClashNeverClaimed` | crates/mes-db/src/repo_sync.rs:227-242 | an entry whose number the cloud holds for another order is never claimed, and its edge never drained, however the run goes on |
| `SyncDrain.BlockedNeverClaimed` | crates/mes-db/src/repo_sync.rs:227-242 | nor is any entry queued behind it: one clash starves all later orders of the plant |
| `SyncDrain.SendUpTo` | crates/mes-db/src/repo_sync.rs:104-130 | where nothing up to a position clashes, the protocol has a continuation that syncs everything up to it |
| `SyncDrain.DrainableIff` | crates/mes-db/src/repo_sync.rs:104-242 | in any state of any run: some continuation drains the edge iff no entry clashes |
| `SyncDrain.ClaimableIff` | crates/mes-db/src/repo_sync.rs:104-242 | in any state of any run: an entry can be claimed iff neither it nor any entry queued before it clashes |
| `SyncDrain.BlockedIsReachable` | crates/mes-db/migrations/0004_m3_work_orders.sql:3-16 | a concrete run in which two plants choose one number and the second is blocked |
| `SyncCommands.RunCommands` | crates/mes-cloud/src/sync.rs:189-199 | in every run: cloud order numbers are unique, and a command is only ever pulled while fewer than 500 unacknowledged ones precede it |
| `SyncCommands.HandOver` | crates/mes-db/src/repo_sync.rs:363-383 | one undisturbed pull, apply, acknowledge of an acceptable command applies it, inserts its order and marks its row |
| `SyncCommands.UndeliverableNever` | crates/mes-db/src/repo_sync.rs:363-383 | a command whose number another order of the plant has, or with 500 such commands before it, is never applied, however the run goes on |
| `SyncCommands.DeliverUpTo` | crates/mes-db/src/repo_sync.rs:363-383 | any other command has a continuation that applies it |
| `SyncCommands.ApplicableIff` | crates/mes-db/src/repo_sync.rs:363-430 | in any state of any run: an unapplied command can be applied iff no other order of the plant has its number and fewer than 500 refused commands precede it |
| `SyncCommands.RefusedIsReachable` | crates/mes-db/src/repo_sync.rs:385-430 | a concrete run in which plant and cloud choose one number and the command is refused |
| `Genealogy.AddGenealogy` | crates/mes-db/src/repo_trace.rs:123-146 | a new edge gets its quantity, one that exists keeps its first; no other edge changes |
| `Genealogy.QueryStops` | crates/mes-db/src/repo_trace.rs:161-191 | the recursive query's working table is empty after depth 64, cycles or not |
| `Genealogy.TraceMeaning` | crates/mes-db/src/repo_trace.rs:161-191 | a trace lists exactly the entities reachable by a walk of 1 to 64 edges, each with its shortest-walk length |
| `Genealogy.BackwardMeaning` | crates/mes-db/src/repo_trace.rs:161-191 | the backward trace of an assembly lists the components it consumed through 1 to 64 recorded edges, each at its least distance |
| `Genealogy.TraceDuality` | crates/mes-db/src/repo_trace.rs:161-224 | b is at depth d in the backward trace of a iff a is at depth d in the forward trace of b |
| `Genealogy.TraceMonotone` | crates/mes-db/src/repo_trace.rs:123-224 | recording an edge never removes an entity from a trace or increases a depth |
| `Genealogy.TraceComplete` | crates/mes-db/src/repo_trace.rs:161-191 | on at most 64 entities the trace holds everything reachable |
| `Genealogy.TraceCompleteIff` | crates/mes-db/src/repo_trace.rs:161-191 | a trace holds everything reachable iff whatever a walk of 65 edges reaches, a walk of 1 to 64 edges reaches too |
| `Genealogy.TraceMissesDeep` | crates/mes-db/src/repo_trace.rs:161-191 | the far end of a chain of 65 edges is missing |
| `QualityHolds.Evaluate` | crates/mes-core/src/qms.rs:29-45 | a measurement passes iff it lies within the limits that exist, bounds included |
| `QualityHolds.Store.Record` | crates/mes-db/src/repo_qms.rs:161-263 | inspection result, NCR with the lot's part, and holds are written together or not at all |
| `QualityHolds.Store.Disposition` | crates/mes-db/src/repo_qms.rs:290-329 | only an open NCR is dispositioned, by a known user, in one step with its holds |
| `QualityHolds.DispositionEffect` | crates/mes-db/src/repo_qms.rs:290-329 | after rework or use-as-is no hold of the NCR is active, after scrap or return all are as before; other holds are always as before |
| `QualityHolds.Store.Place` | crates/mes-db/src/repo_trace.rs:244-265 | afterwards the material is held, a held lot or serial cannot be issued, and no other material's status changes; refused for an unknown user |
| `QualityHolds.Store.Release` | crates/mes-db/src/repo_trace.rs:267-282 | only an active hold is released, only that one, and only by a known user |
| `QualityHolds.ReleaseEffect` | crates/mes-db/src/repo_trace.rs:267-282 | a release goes through iff the hold is active and the user known; then that hold alone is inactive |
| `QualityHolds.Store.Issue` | crates/mes-db/src/repo_trace.rs:288-322 | an issue is refused iff the lot or serial is held or something it refers to is unknown, and leaves no trace when refused |
| `QualityHolds.RunInv` | crates/mes-db/src/repo_qms.rs:161-329 | in every run: each hold ever placed is on record and inactive only if lifted, each NCR is decided at most once, each issue was clear |
| `QualityHolds.NothingHeldIsIssued` | crates/mes-db/src/repo_trace.rs:284-322 | nothing is issued unless, for each earlier failed inspection and manual hold, that NCR was dispositioned rework or use-as-is, or that very hold released, in between |
| `QualityHolds.DispositionedOnce` | crates/mes-db/src/repo_qms.rs:290-329 | an NCR is dispositioned at most once |
| `QualityHolds.ScrapNeedsRelease` | crates/mes-core/src/qms.rs:113-115 | after scrap or return only an explicit release of that hold lets the material go |
| `QualityHolds.RunNcrsMatch` | crates/mes-db/src/repo_qms.rs:176-231 | in every run, failed inspections and NCRs correspond one to one, with the same lot and serial and the lot's part |
| `QualityHolds.IssueIff` | crates/mes-db/src/repo_trace.rs:288-322 | an issue goes through iff no active hold is on the given lot or serial and all it refers to exists |
| `QualityHolds.RecordIff` | crates/mes-db/src/repo_qms.rs:161-263 | an inspection is recorded iff all it refers to exists and, outside a limit, the NCR number is free; the result is appended as it came out, and a pass changes nothing else |
| `QualityHolds.NcrNoIff` | crates/mes-db/src/repo_qms.rs:213-214 | NCR numbers clash iff the ids agree in their first ten characters |
| `QualityHolds.LotHoldReachesSerialsIff` | crates/mes-db/src/repo_trace.rs:288-322 | no call issues a serial of a held lot iff every such serial is on hold itself |
| `QualityHolds.SerialOfHeldLotIssued` | crates/mes-db/src/repo_trace.rs:288-322 | a run that holds a lot and then issues one of its serials |
| `QualityHolds.FailHoldsIff` | crates/mes-db/src/repo_qms.rs:201-252 | a failed inspection is recorded and holds its material iff its NCR number is free; otherwise it is refused and changes nothing |
| `QualityHolds.CollidingNcrLeavesLotFree` | crates/mes-db/src/repo_qms.rs:214-230 | two 26-character ids made in one millisecond: the second failed lot stays issuable |
| `Spares.Store.Record` | crates/mes-db/src/repo_cmms.rs:462-534 | ledger row and reorder request are written as `RecordTxn` says; a movement of an unknown type, spare, maintenance order or user changes nothing |
| `Spares.Store.CurrentStock` | crates/mes-db/src/repo_cmms.rs:421-430 | the stock query is the signed ledger sum |
| `Spares.Store.Export` | crates/mes-edge/src/erp.rs:343-399 | the snapshot is the requested rows; after a push that went through they are sent, with its reference, and none is left; after a failed push, and outside the snapshot, every row is untouched |
| `Spares.TxnMovesStock` | crates/mes-db/src/repo_cmms.rs:462-534 | a movement is accepted iff it is an issue, receipt or adjustment and all it refers to exists; an issue lowers the spare's stock by its size, a receipt raises it, an adjustment adds as it is, and no other stock moves |
| `Spares.RaisedOnlyOnBreach` | crates/mes-db/src/repo_cmms.rs:507-530 | a request is raised iff stock is at or below the reorder point, there is a quantity to reorder and no auto request is open |
| `Spares.AskMeaning` | crates/mes-db/src/repo_cmms.rs:538-556 | a manual request adds one requested row as asked |
| `Spares.StockIsNetMoved` | crates/mes-db/src/repo_cmms.rs:421-534 | in every run, stock is what was received less what was issued plus the adjustments; requests and exports never touch it |
| `Spares.RunInv` | crates/mes-db/src/repo_cmms.rs:462-534 | the ledger and request invariants hold in every state of every run |
| `Spares.ReorderExactlyOne` | crates/mes-db/migrations/0010_m9_cmms.sql:119-121 | a spare never has two open auto requests, and a movement that leaves stock at or below the reorder point leaves exactly one |
| `Spares.AutosOrderReorderQuantity` | crates/mes-db/src/repo_cmms.rs:500-534 | every auto request ever raised is for its spare's positive reorder quantity |
| `Spares.AutosSeparatedBySend` | crates/mes-db/src/repo_erp.rs:280-300 | two auto requests for a spare are separated by a send of the first to the ERP |
| `Spares.ExportsMoveTheirOwn` | crates/mes-edge/src/erp.rs:343-399 | an export marks only rows of its own earlier snapshot, and no row is ever marked twice, overlapping exports included |
| `Spares.PushIsOwnSnapshot` | crates/mes-edge/src/erp.rs:343-385 | every push is of the snapshot its own export took, and no export pushes twice |
| `Spares.PushedTwiceIff` | crates/mes-edge/src/erp.rs:343-399 | of two exports that push, the later one sends a request of the earlier one again iff it took its snapshot before that request was marked |
| `Spares.PushedTwiceReachable` | crates/mes-edge/src/erp.rs:343-399 | two overlapping exports send one request to the ERP twice |
| `Pareto.Rank` | crates/mes-core/src/analytics.rs:81-104 | the rows show the ranked categories with their share and running share |
| `Pareto.RankedIsPermutation` | crates/mes-core/src/analytics.rs:81-88 | the ranking is a permutation of the inputs with positive time |
| `Pareto.RankedOrder` | crates/mes-core/src/analytics.rs:83-88 | larger times first, equal times by ascending key |
| `Sorting.LexMeaning` | crates/mes-core/src/analytics.rs:83-88 | the order on keys: a prefix, or smaller at the first difference |
| `Pareto.ShareIsPercent` | crates/mes-core/src/analytics.rs:89-104 | a share is the part's percentage of the total |
| `Pareto.OrderIndependent` | crates/mes-core/src/analytics.rs:83-88 | for distinct keys the ranking does not depend on input order |
| `Pareto.ParetoDominates` | crates/mes-core/src/analytics.rs:81-104 | the first k rows total at least as much as any k categories |
| `Pareto.SharesConcave` | crates/mes-core/src/analytics.rs:89-104 | the running share grows by non-increasing steps and ends at exactly 100 |
| `FieldMapping.FromJson` | crates/mes-erp/src/mapping.rs:25-43 | parsing succeeds iff the chosen object maps names to strings, and then holds exactly its entries in key order |
| `FieldMapping.Import` | crates/mes-erp/src/mapping.rs:46-54 | the loop translates every mapped field that is present |
| `FieldMapping.Export` | crates/mes-erp/src/mapping.rs:57-65 | the loop translates back, later keys overwriting |
| `FieldMapping.ToCanonicalAt` | crates/mes-erp/src/mapping.rs:46-54 | a canonical name is in the result iff its external name is in the record, with that value |
| `FieldMapping.ToExternalAt` | crates/mes-erp/src/mapping.rs:57-65 | colliding external names resolve to the greatest canonical key present |
| `FieldMapping.ImportExport` | crates/mes-erp/src/mapping.rs:46-65 | import then export returns the external record cut to the mapped names, for every mapping |
| `FieldMapping.ExportImportIff` | crates/mes-erp/src/mapping.rs:46-65 | export then import returns the mapped part of a canonical record iff colliding fields agree |
| `FieldMapping.ExportImportAlwaysIff` | crates/mes-erp/src/mapping.rs:46-65 | it does so for every record iff external names are distinct |
| `FieldMapping.CollidingExportLoses` | crates/mes-erp/src/mapping.rs:46-65 | two canonical names for one external name: a record with one comes back with both |
| `FieldMapping.WrappedRoundTrip` | crates/mes-erp/src/mapping.rs:25-43 | the wrapped form always parses back |
| `FieldMapping.BareRoundTripIff` | crates/mes-erp/src/mapping.rs:25-43 | the bare form parses back iff no canonical field is called "fields" |
| `FieldMapping.BareFieldsRefused` | crates/mes-erp/src/mapping.rs:25-43 | a bare mapping of "fields" is refused |
| `Redaction.ScrubString` | crates/mes-diagnostics/src/redact.rs:50-63 | the buffer loop computes `Scrub` |
| `Redaction.RedactValue` | crates/mes-diagnostics/src/redact.rs:80-96 | the recursive loops compute `Redact` |
| `Redaction.EmailIff` | crates/mes-diagnostics/src/redact.rs:65-68 | an email has a first @ that is not its first character and a dot after it |
| `Redaction.TokenIff` | crates/mes-diagnostics/src/redact.rs:70-77 | a token has 24 characters or more, all letters, digits or _-+/, with a digit |
| `Redaction.AsciiSpaces` | crates/mes-diagnostics/src/redact.rs:50-63 | which ASCII characters separate words |
| `Redaction.ScrubbedBare` | crates/mes-diagnostics/src/redact.rs:50-63 | a one-word text is replaced by [redacted] if secret, else kept |
| `Redaction.ScrubbedClosed` | crates/mes-diagnostics/src/redact.rs:50-63 | the first word is replaced or kept, its whitespace kept, and the rest scrubbed the same way |
| `Redaction.ScrubLayout` | crates/mes-diagnostics/src/redact.rs:50-63 | the words of the scrubbed text are the scrubbed words, one for one |
| `Redaction.ScrubIsClean` | crates/mes-diagnostics/src/redact.rs:50-77 | no word of scrubbed text looks like an email or an opaque token |
| `Redaction.CleanTextIff` | crates/mes-diagnostics/src/redact.rs:50-77 | the same said without splitting: a text is clean iff no maximal stretch without whitespace is a secret |
| `Redaction.ScrubLeavesNoSecret` | crates/mes-diagnostics/src/redact.rs:50-77 | no maximal stretch of scrubbed text without whitespace is a secret |
| `Redaction.AddressRedacted` | crates/mes-diagnostics/src/redact.rs:50-68 | any user@host.domain is replaced |
| `Redaction.CleanTextKept` | crates/mes-diagnostics/src/redact.rs:50-63 | text without such words is left alone |
| `Redaction.ScrubKeepsSpaces` | crates/mes-diagnostics/src/redact.rs:50-63 | every whitespace character is kept, in order |
| `Redaction.RedactIsClean` | crates/mes-diagnostics/src/redact.rs:12-96 | at every depth of any value: only allowlisted keys and clean text |
| `Redaction.RedactedMembers` | crates/mes-diagnostics/src/redact.rs:80-92 | of an object exactly the allowlisted members are kept, each redacted |
| `Redaction.CleanIsKept` | crates/mes-diagnostics/src/redact.rs:80-96 | a clean value passes through unchanged |
| `Redaction.RedactIdempotent` | crates/mes-diagnostics/src/redact.rs:80-96 | redacting twice is redacting once |
| `Redaction.DiagBuffer.constructor` | crates/mes-diagnostics/src/buffer.rs:18-25 | an empty buffer of capacity at least one |
| `Redaction.DiagBuffer.Push` | crates/mes-diagnostics/src/buffer.rs:27-33 | the buffer holds the redacted last `cap` events pushed, oldest first |
| `Redaction.DiagBuffer.Snapshot` | crates/mes-diagnostics/src/buffer.rs:35-37 | the snapshot is that list, min(n, capacity) long, and every event in it is clean |

## Left out

- StateMachine.ComputeStates: needs a non-negative micro-stop threshold, because with a negative one a repeated pulse yields an empty stop; the configured thresholds are positive. It also needs pulses inside the window, which the fetch query ensures.
- PlannedStops.ApplyPlannedStops: planned stops already in its input must be covered by the planned list, which holds for every timeline of ordinary states and for every overlay result.
- DerivedStore.Store.RecomputeStates: the event and planned-stop tables are arguments, since nothing here writes them.
- Oee.OeeSqlBounded: counts and ideal cycle times are taken as non-negative; ingest does not check their sign.
- ShiftSlicing.OeeByShift: shifts arrive sorted by start time, as the query returns them.
- QualityHolds.Store.Record: free-text reasons and the columns that say who acted when are not modelled. Lots, serials, operations and users do not change during a run.
- Spares.Store.Export: one call without interleaving; exports that overlap other calls are the `StartExport`, `PushExport` and `MarkExport` steps of the runs. The sync log is not modelled.
- SyncDrain.SendUpTo: shows that a sending continuation exists, which may add missing master data at the cloud; that a scheduler takes it is not claimed. The same holds of `SyncCommands.DeliverUpTo` at the plant.
- SyncDb.Store.CreateWorkOrder: master data is fixed for the life of a `Store`; in the protocol's runs it may change at any time.
- Genealogy.TraceMeaning: the order of the returned rows and their reference numbers are not modelled.
- Floating-point rounding, `i64` overflow in sums, and decimal precision: arithmetic is exact.
- PostgreSQL isolation below whole transactions: each call is atomic, so for instance a hold placed between the check and the insert of one issue is not modelled.
- The edge's sync client loop is not in the repository; its primitives are used in their documented order (fetch, push, mark after an OK; pull, apply entry by entry, acknowledge applied ids). Plant authentication is an assumption: a message carries its own plant's id.
- Outbox order among rows with equal creation times, and later work-order status changes, which the code does not put in the outbox.
- HTTP routing, configuration, tracing, WebSockets, the desktop application, password hashing, tokens and encryption: plumbing and library code.
- Role predicates, enum parsing and the single-step status tables: each is a table read off in one place, and nothing in the system depends on how its entries combine over several calls.
- Master data and list queries: rows are written and read back as they are, with no invariant across rows beyond the keys and references the modelled tables already check.
- Work-order and operation execution: starting an operation does not look at its order's status and completing an order does not look at its operations, so no invariant joins the two.
- Maintenance orders and schedules, DNC transport (whose wire format is a declared placeholder), and the copilot and agent tools, which call a foreign model.
