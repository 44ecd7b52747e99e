# A verified model of the identity pipeline and the Space-Track pull

The repository builds a satellite catalog. Several sources publish whole snapshots every day; the
pipeline turns them into a ledger of claims, a crosswalk from catalog keys to satellites, operators and
manufacturer cohorts, and pulls element-set history from Space-Track under that site's request limits.
This project models the parts that change state and proves what they keep.

`dafny verify dfyconfig.toml` checks everything. One module per component:

| module | models |
|---|---|
| Claims, ClaimWriters | the temporal claim ledger, and writers of it interleaved statement by statement |
| Retention | which raw snapshots a prune keeps |
| Pacing, Backfill, Topup | throttle, hourly pacer and retry loop; the checkpointed backfill; the nightly cursor |
| Graph, Reconcile, GcatLinks, GcatNights | link and merge; promotion of provisional satellites; the GCAT link passes and the expiries, over whole nights |
| WarmCache | the two-lock cache as an interleaved state machine |
| Rollup, Aliases, OperatorMerge, Enrich | organisations: parent walk, curated aliases, cohort merge, operator enrichment |
| Planes, Routes, Track | plane segmentation, route match and print, downsampling |

How to read it. A SQL table is a set or map in a class and a statement is a method on it (Claims, Graph,
OperatorMerge, Enrich); a transaction that fails leaves the fields as they were. A method's contract
states the new state, as a rule as a function of the old one, and the lemmas are about that function. Concurrent parts
(ClaimWriters, WarmCache) are state machines whose lemmas range over every sequence of steps. Time is
`real` seconds or `int`; sleeping for w advances the clock by exactly w and nothing passes between a stamp
and the send it stamps. Normalisation of names, case folding, the calendar of SQL dates and the replies of
servers are parameters.

## Where the code and its documentation differ

The model follows the code. Each point is a lemma with a concrete input or an exact condition.

- A run that gives one (key, attribute) two values loses one of them silently
  (`Claims.HeldIsRowsIffFunctional`, `Claims.SecondValueIsLost`); identity/claims.py:107-109 ignores the value.
- `merge` keeps every key but not its liveness (`Graph.LivenessLostIff`).
- `promote` calls itself idempotent because a second run selects nothing. What it selects is every record left
  with a single twin, counting the COSPARs the first run moved onto survivors: a declined pair again unless its
  record gained a second twin, and sometimes a pair the first run did not have
  (`Reconcile.SecondRunIff`, `Reconcile.DeclinedComesUpAgainIff`, `Reconcile.SecondRunMayPromoteMore`).
- The retry loop does not stop on a status of 600 or more (`Pacing.MoreAttemptsIff`,
  `Pacing.Always600NeverEnds`); with statuses below 600 (section 15 of RFC 9110) four attempts are the most.
- Pacer before throttle breaks the cap after a login (`Pacing.PacerBeforeThrottleBreaksTheCap`), because the login
  is throttled but not paced: without it that order keeps the cap too (`Pacing.OtherOrderKeepsCapWithoutLogin`).
- The nightly link passes settle after one night on anchored rows, and on other rows exactly when
  `GcatNights.SecondNightIff` says; a standard piece that has churned and has no anchored holder never settles
  (`GcatNights.ThirdNightIff`, `GcatNights.EveryNightCreates`, `GcatNights.ChurnedPieceNeverSettles`).
- The moved-key pass anchors every piece, and the link pass links only standard ones or those of rows with a NORAD:
  a key-number row with another piece leaves the key on a satellite that is not its anchor
  (`GcatLinks.OneAnchorOneHolderIff`, `GcatLinks.NonStandardPieceStaysOff`).
- Enrichment is idempotent unless a documented SATCAT name normalises to nothing
  (`Enrich.SecondRunIff`, `Enrich.BlankNameAddsAnOperator`); even then the third run adds nothing.
- A retired slug is not always redirected: the merge skips a representative with a NULL slug, and an old
  redirect is never rewritten (`OperatorMerge.LiveSlugLostIff`, `OperatorMerge.StaleRedirectStopsAnswering`).
- A cycle of business parents, or a chain longer than the cap, can put a child and its parent in different
  cohorts (`Rollup.ParentSharesGroupIff`, `Rollup.CycleSplitsCohort`).

## Model

| member | source | states |
|---|---|---|
| Claims.ClaimStore.RecordRun | identity/claims.py:68-121 | the statement sequence of `record` in place: guards, closing UPDATE, inserting INSERT, progress upsert; a violated constraint or a refused run leaves the tables as they were |
| Claims.RecordedHeld | identity/claims.py:91-113 | after a recorded run the feed holds only rows of that run, at most one per (key, attribute), keeps each row of the run that it held already, and leaves no slot of the run without a claim |
| Claims.HeldIsRowsIffFunctional | identity/claims.py:103-110 | the open claims equal the run's rows if and only if the run gives each (key, attribute) one value |
| Claims.SecondValueIsLost | identity/claims.py:104-110 | concrete ledger: a run asserts two values of one slot, one of them already open; the call succeeds and the other value is nowhere |
| Claims.OpeningIsNew | identity/claims.py:102-113 | the inserted triples are exactly what the feed holds afterwards and did not hold before |
| Claims.ClosingIsGone | identity/claims.py:91-101 | the closed triples are exactly what the feed held before and no longer holds |
| Claims.CountsAreDifferences | identity/claims.py:91-121 | the returned pair (closed, opened) is the sizes of the two set differences |
| Claims.OthersUntouched | identity/claims.py:75-82 | other feeds' claims and progress are untouched by a call; a refused or failed call changes nothing at all; stale, repeated and empty runs are refused |
| Claims.WellFormedRunIsRecorded | identity/claims.py:75-121 | a newer, non-empty, one-value-per-slot run is always recorded when the clock did not run backwards |
| Claims.LedgerEncodesHistory | identity/claims.py:68-121 | over any sequence of calls, well formed or not, the claim table is the run-length encoding of the recorded runs, and those strictly increase |
| Claims.EveryRunReconstructs | identity/claims.py:68-121 | the claims with first_run at or before r and not closed by r are what the feed held at r, and exactly r's rows if and only if r was one-value-per-slot |
| Claims.IntervalsDisjointAndMaximal | identity/claims.py:68-121 | two claims of one slot never overlap and two with the same value are not even adjacent |
| Claims.ObservedToIsLastObservation | identity/claims.py:91-101 | a closed claim's observed_to is the observation time of the last run that held it, and the closing run is the next recorded one |
| Claims.RangesHold | db/migrations/0023_claims.sql:16-28 | over any history no closed claim ends its observation before it begins (the table's CHECK) |
| Claims.OutcomeIff | identity/claims.py:75-82 | a call is refused exactly when it has no rows or its run is not newer than the feed's last one; of the others it aborts exactly when the clock went back or the run gives two values to a slot without an open claim |
| Claims.RecordIs | identity/claims.py:91-121 | each row of the table after a recorded run, written out: what stays, what is closed and with which values, what is inserted, and the progress row |
| ClaimWriters.WorkDependsOnOpenClaims | identity/claims.py:91-113 | what a writer will close and open depends on its feed's open claims only |
| ClaimWriters.OtherFeedStaysUpToDate | identity/claims.py:57-60 | a commit of another feed does not disturb a writer that holds this feed's advisory lock |
| ClaimWriters.CommitIsRecord | identity/claims.py:57-121 | the commit of a writer whose statements ran interleaved with other feeds' is one atomic `record` |
| ClaimWriters.StepKeepsInvariant | identity/claims.py:57-121 | every statement of every writer keeps: one lock holder per feed, and each holder's pending work is what an atomic run would do |
| ClaimWriters.InterleavingsSerialize | identity/claims.py:57-121 | every interleaving of every set of writers leaves the tables as if the committed calls had been recorded one at a time in commit order |
| ClaimWriters.CommittedRunsIncrease | identity/claims.py:80-82 | the committed runs of a feed strictly increase and the open claims are those of its newest one |
| ClaimWriters.EveryCommitRecorded | identity/claims.py:144-159 | every call that commits was recorded by the serial replay as well |
| ClaimWriters.RefusedWritersChangeNothing | identity/claims.py:75-82 | a writer whose run is stale, repeated or empty at some point of an execution changes the committed tables neither then nor at any later point, whatever the others do |
| ClaimWriters.KilledWriterRollsBack | identity/claims.py:57-60 | a killed writer changes nothing and gives the lock back |
| ClaimWriters.UndisturbedWriterCommits | identity/claims.py:68-121 | a writer whose run is newer, not empty and one-value-per-slot, with a clock that did not go back and its lock free, commits after six statements of its own, and the feed then holds exactly its rows |
| Retention.SortedOk | scripts/prune_snapshots.py:83 | the OK runs ascending by id, as a set unchanged |
| Retention.RunsToDrop | scripts/prune_snapshots.py:78-97 | the loop over months and the final filter give exactly the runs the policy drops, in table order; fails if and only if keep_latest is below 2 |
| Retention.DropListIsDrop | scripts/prune_snapshots.py:93-97 | the list as a set is the declarative policy: finished, below the newest OK run, not among the newest keep_latest, not the first OK run of its month |
| Retention.RankFromEnd | scripts/prune_snapshots.py:86 | an OK run's place from the end of the sorted list is the number of newer OK runs |
| Retention.KeepMeansProtected | scripts/prune_snapshots.py:86-91 | the keep set is exactly the newest keep_latest and each month's first OK run |
| Retention.DroppedStaysDropped | scripts/prune_snapshots.py:78-97 | a run the policy drops stays dropped however the table evolves: new runs, runs in flight that finish |
| Retention.RankUnchanged | scripts/prune_snapshots.py:86 | removing only runs outside the newest keep_latest does not change who is among them |
| Retention.VerdictUnchanged | scripts/prune_snapshots.py:78-97 | dropping runs that are dropped anyway leaves the verdict on every other run unchanged |
| Retention.PruneEarlyThenLate | scripts/prune_snapshots.py:78-97 | an earlier prune is invisible to a later one, also when runs finished in between |
| Retention.KeepAbsorbs | scripts/prune_snapshots.py:78-97 | keep(keep(A) + B) = keep(A + B) for new runs B |
| Retention.NightlyEqualsOnce | scripts/prune_snapshots.py:78-97 | path independence: for every history, nightly prunes leave what one prune of the full last table leaves |
| Retention.NewestSurvive | scripts/prune_snapshots.py:81-82 | the newest and the two newest OK runs always survive, and so does every unfinished run |
| Retention.NewestAtMost | scripts/prune_snapshots.py:86 | at most keep_latest runs are protected as newest |
| Retention.KeptIsBounded | scripts/prune_snapshots.py:86-97 | kept finished runs at or below the newest OK run number at most keep_latest plus the distinct months |
| Retention.DroppedIff | scripts/prune_snapshots.py:81-97 | the policy written out: a finished run is dropped exactly when a newer OK run exists and, if it is OK itself, at least keep_latest newer ones do and its month has an older OK run |
| Pacing.CappedMeansHourlyCap | scripts/backfill_gp_history.py:213-217 | when stamps max_per_hour places apart are an hour apart, no half-open hour holds more than max_per_hour of them |
| Pacing.PaceKeepsSound | scripts/backfill_gp_history.py:230-243 | one more stamp keeps the cap, and a stamp the pacer delayed is exactly an hour after the one max_per_hour places before it |
| Pacing.HourlyPacer.PruneAt | scripts/backfill_gp_history.py:225-228 | popping from the deque leaves the stamps younger than the window |
| Pacing.HourlyPacer.Acquire | scripts/backfill_gp_history.py:230-243 | the clock afterwards, the deque afterwards and the seconds slept, from the state before |
| Pacing.SpaceTrackClient.Throttle | ingest/spacetrack_client.py:115-120 | the clock moves to three seconds after the last stamp, or not at all, and that moment is the new stamp |
| Pacing.SpaceTrackClient.PostLogin | ingest/spacetrack_client.py:129-135 | the login POST is throttled and sent once, and is not paced |
| Pacing.SpaceTrackClient.LogIn | ingest/spacetrack_client.py:122-143 | which error a login reply raises (`Pacing.LoginIs` spells it out); a rejected login is remembered, and raised again without a request; any other failure is raised and leaves the next call to try again |
| Pacing.SpaceTrackClient.Attempt | ingest/spacetrack_client.py:149-158 | one pass: throttle, pacer, send; every send kept at least three seconds apart and every hour within the cap |
| Pacing.SpaceTrackClient.Pass | ingest/spacetrack_client.py:148-186 | one reply to any server, judged by attempt number, and the doubled backoff before the next |
| Pacing.SpaceTrackClient.Retrying | ingest/spacetrack_client.py:147-186 | against any server, watched for any number of attempts: it ends exactly with the attempt whose reply decides, every earlier reply was worth a retry, pauses of 30 s doubled each time, never a throttle stub returned |
| Pacing.SpaceTrackClient.Request | ingest/spacetrack_client.py:145-186 | the retry loop with the login in front, no query when it fails; when it ends, the result is the one the last reply fixes, success exactly for a status below 400 that is no stub; with statuses below 600 at most four queries, and four always decide |
| Pacing.Session | ingest/spacetrack_client.py:145-186 | over any run of requests to any server, with any time between them and watched at any moment: no half-open hour holds more than max_per_hour GETs, and consecutive sends and consecutive GETs are at least 3 s apart |
| Pacing.QuerySpacedFromLast | ingest/spacetrack_client.py:149-154 | two queries are three seconds apart even when the pacer delayed the first after it was throttled |
| Pacing.QueryKeepsSound | ingest/spacetrack_client.py:153-158 | throttle, pacer, send keeps the spacing and the cap |
| Pacing.LoginKeepsSound | ingest/spacetrack_client.py:129-135 | the unpaced login keeps the spacing and the cap on queries |
| Pacing.MoreAttemptsIff | ingest/spacetrack_client.py:159-185 | a request makes more than n >= 4 attempts if and only if its first three replies are worth a retry and every one from the fourth to the n-th has a status of 600 or more |
| Pacing.EndsAtFirstBelow600 | ingest/spacetrack_client.py:159-185 | past the third attempt it ends with the first reply that is not a status of 600 or more |
| Pacing.RetriedForeverIff | ingest/spacetrack_client.py:148-185 | it never ends if and only if the first three replies are worth a retry and all later ones are 600 or more, since raise_for_status does not raise on those |
| Pacing.Always600NeverEnds | ingest/spacetrack_client.py:166-171 | a server that always answers 600 is asked for ever |
| Pacing.AtMostFour | ingest/spacetrack_client.py:161-185 | with statuses below 600 no request makes a fifth attempt |
| Pacing.JudgeRetries | ingest/spacetrack_client.py:159-186 | which replies are retried: before the fourth attempt the retryable ones, from then on those of status 600 or more; what is returned is below 400 and no stub |
| Pacing.PacerBeforeThrottleBreaksTheCap | ingest/spacetrack_client.py:149-154 | the other order lets two queries into one hour under a cap of one, after a login |
| Pacing.OtherOrderKeepsCapWithoutLogin | ingest/spacetrack_client.py:149-154 | without a login the other order keeps the cap as well, whatever the pauses: the unpaced send is the reason |
| Pacing.JudgeSettles | ingest/spacetrack_client.py:172-186 | what the deciding reply makes of the request: its status if that is below 400 and the reply no stub; otherwise a transport error, the HTTP error of its status, or the rate-limit error, as the reply says |
| Pacing.RetryableIff | ingest/spacetrack_client.py:155-179 | worth a retry: no reply, status 429 or at least 500, or the throttle stub under status 200 |
| Pacing.BackoffDoubles | ingest/spacetrack_client.py:159-185 | the pauses are 30 s, 60 s, 120 s, each twice the one before |
| Pacing.LoginIs | ingest/spacetrack_client.py:129-143 | which login replies are accepted, rejected, an HTTP error or a transport error |
| Pacing.CappedIs | scripts/backfill_gp_history.py:213-217 | the cap is on stretches of 3600 seconds |
| Backfill.MonthlyWindows | scripts/backfill_gp_history.py:153-162 | the windows tile [since, until) in order and none crosses a month |
| Backfill.EveryDateInOneWindow | scripts/backfill_gp_history.py:153-162 | a date is in the range if and only if it is in some window, and then in one only |
| Backfill.WindowsAscend | scripts/backfill_gp_history.py:153-162 | windows ascend without overlap |
| Backfill.ChunksCoverIds | scripts/backfill_gp_history.py:165-167 | the batches in order give the ids back; all but the last are full, none is empty, and there are exactly enough |
| Backfill.EstimateIsBatchCount | scripts/backfill_gp_history.py:170-184 | make_plan's ceil(len(ids) / 100) is the number of batches of a unit |
| Backfill.ChunkList | scripts/backfill_gp_history.py:165-167 | the generator, collected, is the batch list |
| Backfill.UnitKeyInjective | scripts/backfill_gp_history.py:249-250 | two units with one key are the same unit, whatever the operators are called |
| Backfill.IsoInjective | scripts/backfill_gp_history.py:249-250 | an ISO date determines its date |
| Backfill.PaddedInjective | scripts/backfill_gp_history.py:249-250 | zero-padded numbers of one width are injective |
| Backfill.BackfillJob.StopRequested | scripts/backfill_gp_history.py:342-344 | the value the flag has at this look, and the look counted |
| Backfill.BackfillJob.MarkDone | scripts/backfill_gp_history.py:278-284 | the unit is added and the file holds the same units |
| Backfill.BackfillJob.SumRows | scripts/backfill_gp_history.py:275-276 | the sum over the checkpointed units |
| Backfill.BackfillJob.Restart | scripts/backfill_gp_history.py:261-265 | a new process finds the units of the file; the landed rows stay |
| Backfill.BackfillJob.Reset | scripts/backfill_gp_history.py:267-270 | no unit and no file |
| Backfill.RowsDoneAdd | scripts/backfill_gp_history.py:275-284 | adding a new unit adds its rows to the total |
| Backfill.RunUnit | scripts/backfill_gp_history.py:346-363 | the requests of a unit are its batches, in order, up to a failure or a stop; done means every batch landed, failed means a request got no rows, and the rows are what the requests brought |
| Backfill.RunCell | scripts/backfill_gp_history.py:338-366 | a unit is checkpointed only when all its batches landed; a failure or a stop, the one seen after the last batch included, leaves the checkpoint unchanged |
| Backfill.RunOperator | scripts/backfill_gp_history.py:337-373 | done means every window of the operator is checkpointed; nothing checkpointed is requested, and the counts are exact |
| Backfill.RunBackfill | scripts/backfill_gp_history.py:308-380 | whatever happens, a checkpointed unit has every batch landed and is not requested again; it fails if and only if one of its requests failed; an unstopped run leaves every unit landed; the counts are exact and the rows added are what the requests brought |
| Backfill.RunUntilComplete | scripts/backfill_gp_history.py:308-380 | the same over any sequence of stopped, failed and restarted runs of one plan |
| Backfill.OnlyNewWorkComposes | scripts/backfill_gp_history.py:338-344 | never requesting a checkpointed unit carries over from runs to sequences of runs |
| Backfill.MarkKeepsCovered | scripts/backfill_gp_history.py:365 | checkpointing a landed unit keeps the coverage invariant |
| Backfill.UnitKeyReads | scripts/backfill_gp_history.py:249-250 | the key gives back the operator and the two dates |
| Backfill.IsoReads | scripts/backfill_gp_history.py:249-250 | an ISO date gives back its year, month and day |
| Backfill.BackfillJob.Ask | scripts/backfill_gp_history.py:346-356 | one request, its rows landed unless it fails |
| Topup.OkWindowsAppend | scripts/spacetrack_topup.py:201-203 | a new ledger row adds its window exactly when it is OK |
| Topup.Database.StartRun | scripts/spacetrack_topup.py:181 | one open ledger row is added |
| Topup.Database.FinishRun | scripts/spacetrack_topup.py:201-203 | the row's verdict and a pending cursor write take effect together |
| Topup.Refusal | scripts/spacetrack_topup.py:147-180 | each refusal if and only if its condition holds and no earlier one does: fresh, gap too long, empty window, missing operator, dry run, budget; none exactly when all pass |
| Topup.Pull | scripts/spacetrack_topup.py:183-199 | the run succeeds exactly when there is a fleet, no request failed and either some rows came or fewer than 100 ids were asked for; every planned batch then landed and the rows are what the requests brought |
| Topup.RecordSkip | scripts/spacetrack_topup.py:149-154 | a skipped night adds its ledger row and moves neither cursor nor OK windows |
| Topup.Settle | scripts/spacetrack_topup.py:185-203 | cursor and OK row change together or not at all; the night's row ends OK, in error, or open when the process died |
| Topup.GpTopup | scripts/spacetrack_topup.py:144-206 | the effect of a night for every outcome, and the ledger rows it leaves; the cursor moves only when all planned batches landed |
| Topup.ChainGrows | scripts/spacetrack_topup.py:122-136 | an OK night extends the chain from the cursor to its own upper bound |
| Topup.EveryMomentOnce | scripts/spacetrack_topup.py:122-136 | between the first OK night and the cursor every moment is in exactly one OK window |
| Topup.WindowsCover | scripts/spacetrack_topup.py:122-136 | contiguous windows cover exactly the moments from the first lower bound to the last upper bound |
| Topup.RunNights | scripts/spacetrack_topup.py:144-206 | over any history of nights the OK windows are contiguous, the cursor is the last OK bound and never moves back, and every window that became OK had all the batches its night planned landed |
| Topup.PullWindow | scripts/spacetrack_topup.py:183-203 | the night's effect when the pull was begun: cursor and ledger for each outcome, and when it landed, the rows are what the requests brought |
| Topup.WindowIs | scripts/spacetrack_topup.py:122-136 | the window is from the cursor, or three days before now, to two hours before now, both cut to the second |
| Topup.FreshIff | ingest/runlog.py:58-66 | a night is skipped as fresh exactly when an OK row finished at most 20 hours before |
| Graph.DeleteMakesRoom | identity/merge.py:98-113 | after the DELETE the UPDATE cannot violate the uniqueness key, and without it it would exactly when there was something to delete |
| Graph.FoldConserves | identity/merge.py:98-113 | one child table: key kept, survivor's keys are the union of both sides, survivor's own rows kept, nothing left on the merged id, other satellites' rows unchanged, references valid |
| Graph.FoldSize | identity/merge.py:98-113 | the rows lost are one for each key both sides held |
| Graph.SurvivorDecidesLiveness | identity/merge.py:98-113 | for a key both sides hold the survivor's row decides whether it is current |
| Graph.LivenessLostIff | identity/merge.py:98-113 | a key current on either side is not current afterwards if and only if the survivor holds it expired and the merged side holds it current |
| Graph.LivenessLostExample | identity/merge.py:98-113 | that loss on a concrete pair |
| Graph.LinkMakesCurrent | identity/merge.py:24-76 | linking makes the key current on the satellite, keeps the table key, touches nothing else, and is idempotent |
| Graph.GraphStore.Link | identity/merge.py:14-76 | insert, current or with the end date the caller gives, or revive; a log row exactly for a new link, an event exactly for a revived one |
| Graph.GoldFollows | identity/merge.py:163-168 | repointing the labelled cases cannot collide and leaves none on the merged id |
| Graph.MergePreservesIntegrity | identity/merge.py:79-214 | no child row references the deleted id, every table's key and references hold, one log row and one satellite deletion |
| Graph.FailedMergeChangesNothing | identity/merge.py:79-95 | a refused or failing merge leaves the whole database as it was |
| Graph.FoldTable | identity/merge.py:98-113 | the DELETE and the UPDATE of a child table |
| Graph.GraphStore.FoldIdentity | identity/merge.py:97-148 | identifiers, status history and operators folded |
| Graph.GraphStore.FoldDerived | identity/merge.py:149-206 | bus attribution, labelled cases, authorizations and credits folded |
| Graph.GraphStore.FoldAll | identity/merge.py:96-214 | all seven child tables, then the log row, then the satellite |
| Graph.GraphStore.Merge | identity/merge.py:79-214 | the whole database and the outcome, in every case |
| Graph.MergeConserves | identity/merge.py:97-206 | each of the six folded tables has the survivor's rows, under the keys it lacks the merged side's with their data, and the rest unchanged; every labelled case is still there, those of the merged satellite now on the survivor |
| Reconcile.Select | identity/reconcile.py:48-68 | the candidates: provisional satellites with exactly one anchored twin, ordered by id |
| Reconcile.SelectionUnique | identity/reconcile.py:48-68 | the query determines its list |
| Reconcile.SelectionIsWorkable | identity/reconcile.py:48-68 | in a fresh selection every pair is a live provisional satellite and a live anchored one |
| Reconcile.SettleKeepsWorkable | identity/reconcile.py:98-132 | settling one pair leaves the rest workable: every later survivor still exists |
| Reconcile.SettleIsSafe | identity/reconcile.py:98-132 | one pair removes at most its provisional satellite and keeps integrity |
| Reconcile.RunIsSafe | identity/reconcile.py:84-142 | a run removes exactly the promoted provisional satellites, keeps every anchored one and the integrity of the database |
| Reconcile.PromotionsUseUpProvisionals | identity/reconcile.py:132 | each promotion uses up one provisional record |
| Reconcile.SettleOne | identity/reconcile.py:98-132 | the loop body on the store: decline with an event, or merge and count |
| Reconcile.Promote | identity/reconcile.py:84-142 | the run on the store and its count |
| Reconcile.RepeatPromote | identity/reconcile.py:84-142 | over any number of runs the promotions sum to the provisional records used up; among more runs than there were provisional records one promotes nothing, and after it none does |
| Reconcile.TwinsUnmoved | identity/reconcile.py:48-68 | a merge does not change who the anchored twins of a record are when it shares no COSPAR with the merged one |
| Reconcile.LiveAfterRun | identity/reconcile.py:84-132 | which keys a run leaves current, read off the state before it: the first holder among the survivor and the records merged into it, in order, decides |
| Reconcile.CosparsAfterRun | identity/reconcile.py:48-68 | the COSPARs a run leaves current on a satellite |
| Reconcile.TwinsAfterRun | identity/reconcile.py:48-68 | the anchored twins a record has after the run; none it had is lost |
| Reconcile.SecondRunIff | identity/reconcile.py:84-142 | exactly what the second run selects; it selects nothing if and only if no record left has a single twin by then, and promotes nothing if and only if every such record disagrees with that twin on the name |
| Reconcile.DeclinedComesUpAgainIff | identity/reconcile.py:84-89 | a declined pair is selected again if and only if its record gained no second twin |
| Reconcile.OneRunIsEnough | identity/reconcile.py:84-89 | a special case: a second run promotes nothing when provisional records share no current COSPAR |
| Reconcile.SecondRunMayPromoteMore | identity/reconcile.py:84-89 | a concrete state whose first run promotes one record and whose second run promotes another |
| Reconcile.CandidateIff | identity/reconcile.py:48-68 | a pair is selected exactly when the join, written out on the rows, gives the provisional satellite that anchored one and no other |
| Reconcile.SettleIs | identity/reconcile.py:98-132 | a refused pair leaves one event on the provisional satellite and nothing else; any other ends with the provisional satellite gone, its links on the anchored one, one log row and one event there |
| GcatLinks.CreateSatellite | identity/match.py:85-94 | a new row under the next id, with the row's launch date and name |
| GcatLinks.BulkUpsert | identity/match.py:140-161 | every NORAD of the snapshot has a satellite afterwards, each new one as some row of it gives it; nothing changes when all had one |
| GcatLinks.LinkAllMember | identity/match.py:173-208 | the two statements make every staged link current and leave every other row alone |
| GcatLinks.BulkLink | identity/match.py:164-211 | the table afterwards, one log row for each new link and one event for each revived one, and no others |
| GcatLinks.NoradPass | identity/match.py:248-280 | the links of the rows with a NORAD are exactly made current |
| GcatLinks.FindByCospar | identity/match.py:105-125 | the lowest id among the current holders, or none |
| GcatLinks.LinkKeys | identity/match.py:337-342 | the two calls of `link` for a row: links, log rows and events |
| GcatLinks.CosparRow | identity/match.py:319-342 | the key's own number first, then the piece, then a new satellite; the tables, log rows and events in each case |
| GcatLinks.CosparPass | identity/match.py:305-342 | every row in order, anchored or not |
| GcatLinks.CosparAllAnchored | identity/match.py:319-342 | on anchored rows the pass only makes their claims current |
| GcatLinks.ExpireMoved | identity/churn.py:185-242 | exactly the moved links are retired, none deleted, one expiry event on the satellite of each |
| GcatLinks.NoKeyLosesItsLastLink | identity/churn.py:177-181 | a key with a current gcat link has one after the moved-key pass, on any database |
| GcatLinks.ClaimsAreNotMoved | identity/churn.py:159-182 | no link a row claims is ever retired as moved: the passes do not undo each other |
| GcatLinks.ClaimsHold | identity/churn.py:159-182 | after a night every claimed link is current |
| GcatLinks.OneAnchorOneHolderIff | identity/churn.py:168-181 | a key with one anchor ends with that anchor as its only current gcat holder if and only if a row claims it there or the anchor held it already |
| GcatLinks.AnchorClaimsIff | identity/match.py:337-342 | an anchored key is claimed: a GCAT id always, a piece if and only if some row anchoring it there has a NORAD or a standard piece |
| GcatLinks.NonStandardPieceStaysOff | identity/churn.py:168-181 | a concrete S<n> row with a non-standard piece: its anchor never gets the key and another satellite keeps it |
| GcatLinks.NothingMovedTwice | identity/churn.py:159-182 | a second moved-key pass finds nothing |
| GcatLinks.NightUnique | identity/match.py:164-211 | the crosswalk's uniqueness key holds after the passes |
| GcatLinks.NightIsFixpoint | identity/churn.py:159-242 | the anchored rows' link pass and the moved-key pass twice leave the links of once |
| GcatLinks.ExpireContested | identity/churn.py:130-156 | a current link is retired exactly when it is a gcat_id or cospar whose (type, value) churned on a satellite without a NORAD, one expiry event on the satellite of each; no key is deleted |
| GcatLinks.IdentsIff | identity/match.py:268-279 | the identifiers a row gives: its key, its piece when normalized and either standard or with a NORAD, its name when it has a NORAD |
| GcatLinks.ClaimsIff | identity/match.py:173-186 | a link is claimed exactly when a row gives the identifier and its NORAD, or for want of one its key's number, is the satellite's |
| GcatLinks.CosparStepIs | identity/match.py:319-342 | the satellite reached by the number takes the row's links; else the lowest holder of a standard piece, else a new satellite with its name and launch date; any other row changes nothing |
| GcatLinks.MovedIff | identity/churn.py:159-182 | a link is moved exactly when the key has one anchor over the whole snapshot, that anchor holds it currently, and the link is another satellite's |
| GcatNights.NightLeavesDone | identity/churn.py:159-242 | after a night of any snapshot every claim is current, no key is moved and no current link contested |
| GcatNights.CosparAllPlan | identity/match.py:319-342 | when claims are current the piece pass creates a satellite if and only if some waiting row's piece has no holder, and otherwise links the lowest holders, in any order of rows |
| GcatNights.NextNightIff | identity/match.py:305-342 | for any snapshot, on the tables a night leaves: the next night changes nothing if and only if every row its piece decides has a holder whose links of the row stay as they are |
| GcatNights.NightPicks | identity/match.py:305-342 | what the first night links: claims for anchored rows, for each piece its lowest holder or one new satellite, in any order of rows |
| GcatNights.HoldersAfter | identity/churn.py:130-156 | who holds a piece after the night: the holders and the pick, less provisional ones when the piece has churned |
| GcatNights.SecondNightIff | identity/match.py:305-342 | when no anchored row carries the piece of a row its piece decides (pieces apart), on the tables before the first night: the second changes nothing if and only if every row its piece decides has an unchurned piece, or an anchored lowest holder, or a lowest anchored holder with both links current |
| GcatNights.OneRowSecondNightIff | identity/match.py:319-342 | the same for one row without an anchor, standard or not |
| GcatNights.ThirdNightIff | identity/match.py:319-342 | with pieces apart, the third night changes nothing if and only if every such piece has not churned or is held by an anchored satellite |
| GcatNights.EveryNightCreates | identity/match.py:334-336 | otherwise, with pieces apart too, every night from the second on creates a satellite |
| GcatNights.FullNightIsFixpoint | identity/churn.py:130-242 | on anchored rows one night is enough, with all three passes |
| GcatNights.OneHolderAfterNightIff | identity/churn.py:130-181 | on anchored rows and with all three passes, a key with one anchor ends there and nowhere else if and only if a row claims it there or it was there already |
| GcatNights.RunNight | identity/match.py:248-342 | the passes of one night on the tables compute that function, for any snapshot |
| GcatNights.TwoNights | identity/churn.py:130-242 | two nights on the tables and exactly when the second changes nothing, for any snapshot |
| GcatNights.UnanchoredRowNeverSettles | identity/match.py:329-336 | a row without an anchor, with a standard churned piece nobody holds: n nights create n satellites and leave the row as it was, for every n |
| GcatNights.ChurnedPieceNeverSettles | identity/match.py:329-336 | such a row on an empty crosswalk: key X00001, piece 2024-001A |
| GcatNights.ContestedPassTakes | identity/churn.py:93-103 | after a night no satellite without a NORAD has a current gcat_id or cospar link that churned; every other link is as the passes before left it |
| GcatNights.ChurnedGcatIdExpires | identity/churn.py:93-103 | a concrete gcat_id link, X00001 on a satellite without a NORAD, expires |
| WarmCache.AlwaysInvariant | api/cache.py:75-123 | over every interleaving of readers, cold callers and the refresher the lock and value invariant holds |
| WarmCache.OneComputationAtATime | api/cache.py:95-107 | at most one compute runs |
| WarmCache.ColdCallersComputeOnce | api/cache.py:96-98 | all cold callers together cause at most one successful compute |
| WarmCache.ValueNeverReverts | api/cache.py:105-107 | once there is a value there always is one, and it is only replaced by one whose compute started later |
| WarmCache.ReadsAreMonotone | api/cache.py:85-89 | over any run, of two reads the one that returns later never returns a value whose compute started earlier; a read that begins after another returned is a case of it |
| WarmCache.WarmGetSkipsRefresh | api/cache.py:85-87 | a get on a warm cache never enters the refresh path, so it never waits for a compute |
| WarmCache.RefresherStartsOnce | api/cache.py:125-132 | at most one refresher thread is ever started |
| WarmCache.FailureKeepsLastValue | api/cache.py:99-104 | a failing compute leaves the value and frees the refresh lock |
| WarmCache.NoDeadlock | api/cache.py:85-107 | while a call is in progress some call can go on |
| WarmCache.PayloadLockIsShort | api/cache.py:85-107 | whoever holds the payload lock releases it in its next step |
| WarmCache.ComputesAlone | api/cache.py:91-107 | left alone at the refresh lock with nothing to find, a thread computes, stores the value and lets both locks go |
| WarmCache.RefresherReplaces | api/cache.py:109-117 | a refresher round after a success computes again, and its success replaces the value that was there |
| WarmCache.ColdCallerComputes | api/cache.py:85-107 | a caller that arrives cold computes the value and returns |
| WarmCache.FirstRoundLasts | api/cache.py:109-123 | the refresher starts on its first round, stays on it after a failure, and leaves it with a success |
| WarmCache.FirstRoundSkips | api/cache.py:95-98 | on that round it leaves a value that is there as it is |
| Planes.ReachIsLongest | ingest/schedule_s.py:128-133 | a greedy part is the longest run without a repeated field |
| Planes.GreedyIsSplit | ingest/schedule_s.py:123-135 | the greedy parts concatenated give the lines back and repeat no field |
| Planes.GreedySuffix | ingest/schedule_s.py:123-135 | starting later never costs an extra part |
| Planes.GreedyIsOptimal | ingest/schedule_s.py:123-135 | no order-preserving split without repeats has fewer parts |
| Planes.ScanOne | ingest/schedule_s.py:128-133 | one line extends the open part or starts the next, as the greedy split of one line more does |
| Planes.ReadCell | ingest/schedule_s.py:128-133 | the body of the loop: a repeated field closes the open plane |
| Planes.ReadLine | ingest/schedule_s.py:124-133 | a line whose unit does not fit its field is skipped |
| Planes.ReadPage | ingest/schedule_s.py:123-133 | the lines of one page in order, with its number |
| Planes.Finish | ingest/schedule_s.py:134-138 | the final part becomes a plane if and only if it has an apogee or an inclination |
| Planes.Numbered | ingest/schedule_s.py:136-138 | planes numbered from 0 in order |
| Planes.ParsePlanes | ingest/schedule_s.py:107-138 | the planes are the greedy split of the unit-matching lines, less a final part with neither apogee nor inclination |
| Planes.PlanesAreFaithful | ingest/schedule_s.py:107-138 | no plane repeats a field; the planes give back every unit-matching line with its page apart from that tail; no split uses fewer planes |
| Planes.CellsIff | ingest/schedule_s.py:40-60 | the cells are exactly the lines whose unit fits (angles in degrees, apogee and perigee in km), each with the number of its page, from 1 |
| Planes.PageCellsCount | ingest/schedule_s.py:124-127 | a page gives one cell for each such line, in order |
| Track.CutBounds | api/routers/satellites.py:148-149 | the slices start at 0 and end at n |
| Track.SliceSize | api/routers/satellites.py:148-149 | each slice has the floor or the ceiling of n/400 rows and none is empty above the cap |
| Track.EveryRowInOneSlice | api/routers/satellites.py:148-149 | every row is in exactly one slice |
| Track.AvgWithinBounds | api/routers/satellites.py:117-119 | the mean lies within any bounds of the present values, and is absent exactly when none is present |
| Track.BucketTrack | api/routers/satellites.py:132-162 | at most 400 points: a short series row by row, a long one slice by slice in order |
| Track.ElsetsConserved | api/routers/satellites.py:132-162 | the element-set counts of the points sum to those of the rows |
| Track.MidpointsAscend | api/routers/satellites.py:152-155 | strictly increasing days give strictly increasing points |
| Track.BucketWithinRows | api/routers/satellites.py:153-161 | a point's semi-major axis, perigee and apogee lie within what its own rows recorded, each absent exactly when no row has it |
| Track.PointIs | api/routers/satellites.py:122-129 | a row of a short series keeps its own values, a missing count becoming 0 |
| Track.SliceIs | api/routers/satellites.py:148-149 | slice i is the rows from i n / 400 to (i + 1) n / 400, rounded down |
| Track.MiddleDay | api/routers/satellites.py:152 | a slice's day is that of the row with half the slice, rounded down, before it |
| Track.AvgIsMean | api/routers/satellites.py:117-119 | the mean times the number of present values is their sum |
| Track.PresentIs | api/routers/satellites.py:118 | absent values count for nothing |
| Track.BucketColumns | api/routers/satellites.py:153-161 | each mean is over its own column |
| Routes.SplitJoin | api/seo.py:91 | cutting a path at its slashes undoes joining it |
| Routes.Compile | api/seo.py:89-102 | the loop gives the pattern's parts, or fails when a group name is repeated or starts with a digit; `Routes.SegmentMeans` and `Routes.PartsAppend` say what the parts are |
| Routes.MatchReads | api/seo.py:94-102 | the match is the reading that takes optional segments as early as possible, with the params its parts bind |
| Routes.ReadingIsFound | api/seo.py:94-102 | when some choice of optional segments fits, the match does not fail |
| Routes.MatchIff | api/seo.py:94-102 | a route matches exactly the paths that fit it under some choice of optional segments |
| Routes.AlikeMatches | api/seo.py:99-102 | paths equal up to case and one trailing slash match alike, with the same optional segments |
| Routes.GeneratePath | api/seo.py:117-130 | the loop prints literals as the pattern spells them and the params that are present |
| Routes.PrintSpells | api/seo.py:117-130 | printing the params of a reading gives its pieces with the literals respelled |
| Routes.CanonicalMatches | api/seo.py:117-130 | a route's canonical path matches it with the same params |
| Routes.Match | api/seo.py:105-114 | the loop returns the first match, or raises at the first pattern that does not compile |
| Routes.FindFacts | api/seo.py:109-114 | the winner matches and no earlier route does |
| Routes.FindAlike | api/seo.py:105-114 | alike paths win the same route |
| Routes.CanonicalIsFixpoint | api/seo.py:105-147 | the canonical path wins the same route with the same params and is its own canonical |
| Routes.SharedCanonicalIff | api/seo.py:105-147 | two paths share a canonical path if and only if they differ only in the case of literal segments and one trailing slash |
| Routes.TrailingSlashIsFree | api/seo.py:100 | a slash added to a path that does not end in one changes nothing |
| Routes.CanonicalFor | api/seo.py:138-147 | path and kept query pairs of the canonical URL |
| Routes.CanonicalQueryIsFixpoint | api/seo.py:141-147 | the kept query pairs, parsed and kept again, are themselves |
| Routes.SegmentMeans | api/seo.py:86-98 | for a word n, `:n` is a parameter and `:n?` an optional one; any other segment is literal |
| Routes.PartsAppend | api/seo.py:91-93 | a slash and a non-empty segment add that segment's part, and slashes alone add none |
| Routes.OptionalRouteMatches | api/seo.py:94-102 | `/lit/:n?` matches exactly [lit], without params, and [lit, v] with v non-empty and n = v |
| Routes.ParamRouteMatches | api/seo.py:94-102 | `/lit/:n` matches exactly [lit, v] with v non-empty |
| Routes.OptionalMayBeAbsent | api/seo.py:105-114 | `/lit` is won by `/lit/:n?` and not by `/lit/:n` |
| Routes.OneRoute | api/seo.py:105-114 | a table of one route: it raises, matches or does not as its pattern says |
| Routes.BadPatternsRaise | api/seo.py:105-114 | concrete patterns that do not compile raise |
| Routes.NoneIffNoValue | api/seo.py:143-146 | a key is kept exactly when some query pair gives it a non-empty value |
| Rollup.ExtendIsChain | identity/bus.py:186-203 | extending a row of the recursive query gives rows of it |
| Rollup.RowsArePrefixes | identity/bus.py:186-208 | the rows of a leaf are exactly the non-empty prefixes of one path: at most eleven codes, none twice, all but the first of class B |
| Rollup.ExtendStops | identity/bus.py:199-202 | the walk stops for lack of a business parent, at a code already on the path, or at the cap |
| Rollup.TailIsParentRow | identity/bus.py:186-203 | without its leaf a path is a row of the parent |
| Rollup.EndedAboveIff | identity/bus.py:199-202 | how a walk ended, read off the parents alone |
| Rollup.ParentSharesGroupIff | identity/bus.py:186-208 | an org and its business parent share a group if and only if, going up from the org, at most eleven distinct orgs come before there is none or one met after the org comes up again |
| Rollup.GroupIsFixpointIff | identity/bus.py:204-208 | a group is its own group if and only if it has no business parent but itself |
| Rollup.AcyclicWalksShareTheTop | identity/bus.py:186-208 | without cycles and below the cap everyone on the path has the same group, and it is a fixpoint |
| Rollup.CycleSplitsCohort | identity/bus.py:199-202 | two orgs that name each other end in different groups |
| Rollup.StepIff | identity/bus.py:178-203 | the walk goes from c to p exactly when p is a known org of class B that c's override names or, when c has none, its own parent |
| Rollup.OverrideDecides | identity/bus.py:178-203 | a code with an override to another known class-B org walks there, whatever the snapshot says |
| Aliases.LoadSources | identity/bus.py:118-125 | the inner loop over one entry's aliases, with its first fault |
| Aliases.LoadList | identity/bus.py:116-146 | one list in order, up to its first fault |
| Aliases.LoadCuratedAliases | identity/bus.py:109-151 | the tables of a file or the fault it is refused for |
| Aliases.AddSourcesIff | identity/bus.py:118-125 | an entry is accepted exactly when its aliases are new, distinct and not its target |
| Aliases.FoldIff | identity/bus.py:116-146 | a list is accepted exactly when no alias targets itself, none is listed twice, and no bus has two names; the table is then exactly what the entries say |
| Aliases.AliasingIsIdempotentIff | identity/bus.py:147-150 | resolving twice is resolving once if and only if no target is an alias |
| Aliases.LoadsIff | identity/bus.py:109-151 | a file loads exactly when both lists are clean and unchained, and then both lookups are idempotent |
| Aliases.DisplayNeverOverrules | identity/bus.py:126-130 | a display-only entry labels a code only where a group entry has not, and the first one wins |
| OperatorMerge.OperatorOf | identity/bus.py:450-459 | the alias rule: trusted sources only, seed before gcat_orgs before gcat, then the lowest id; none exactly when nothing trusted names the code |
| OperatorMerge.BusTable.AnnotateGroups | identity/bus.py:470-475 | a row changes operator only to that of a trusted alias of its code that no other precedes, and rows of one code that agreed on the operator still do |
| OperatorMerge.AnnotatedIsConsistent | identity/bus.py:470-475 | after annotating, the operator is a function of the group code |
| OperatorMerge.BusTable.RecordRetired | identity/bus.py:511-519 | the redirects afterwards: old rows kept, one new row for each retired slug that was not there |
| OperatorMerge.InsertMissing | identity/bus.py:518-519 | insertion row by row skipping what is there, and how many were added |
| OperatorMerge.BusTable.MergeCohorts | identity/bus.py:526-536 | on annotated tables two satellites share a cohort afterwards if and only if they shared one or have the same operator; no row comes or goes, and the count is the rows whose cohort changed |
| OperatorMerge.BusTable.Build | identity/bus.py:686-690 | annotate, record on the state before the merge, merge |
| OperatorMerge.EndsUnderRep | identity/bus.py:496-536 | every row of an operator ends under one code, rewritten and marked exactly when that was not its code; `OperatorMerge.LargestSurvives` says which |
| OperatorMerge.NoOperatorUntouched | identity/bus.py:521-536 | a row without an operator is untouched |
| OperatorMerge.CohortsOnlyJoin | identity/bus.py:526-536 | two satellites share a cohort afterwards if and only if they shared one before or have the same operator |
| OperatorMerge.OneCohortPerOperator | identity/bus.py:480-536 | each operator ends with one code, and that cohort is everything the operator had; no satellite is lost |
| OperatorMerge.MergedIsConsistent | identity/bus.py:526-536 | the merge keeps operator and display a function of the code |
| OperatorMerge.MergeTwiceIsOnce | identity/bus.py:511-536 | a second merge changes nothing and retires nothing |
| OperatorMerge.LiveAfterIff | identity/bus.py:526-536 | the slugs live after the merge are exactly those some row kept |
| OperatorMerge.SlugOnRecordIff | identity/bus.py:508-519 | a slug is live or redirected afterwards if and only if it was redirected, some row keeps it, or some row trades it for another |
| OperatorMerge.LiveSlugLostIff | identity/bus.py:508-519 | a live slug goes off record if and only if it was not redirected and every row showing it retires into a cohort with a NULL slug |
| OperatorMerge.ServedAfterIff | identity/bus.py:511-536 | a slug still answers, directly or by its one redirect, if and only if some row keeps it or the redirect on record leads to a slug some row keeps |
| OperatorMerge.SlugLostToNullSlug | identity/bus.py:517 | a concrete merge in which a published slug is neither live nor redirected |
| OperatorMerge.StaleRedirectStopsAnswering | identity/bus.py:508-519 | a concrete merge in which an old redirect, never rewritten, stops answering |
| OperatorMerge.LargestSurvives | identity/bus.py:496-504 | the code an operator's rows end under had at least as many satellites as any other of its codes, and in a tie the lower code |
| OperatorMerge.ThreeBeatOne | identity/bus.py:496-504 | three satellites under code 5 and one under code 1: all four end under code 5 |
| OperatorMerge.OperatorBySource | identity/bus.py:450-459 | the operator of a code is the lowest id among the aliases of the first of seed, gcat_orgs and gcat that names it |
| Enrich.OperatorTables.AttachAlias | identity/enrich_operators.py:183-188 | the alias row is there once |
| Enrich.OperatorTables.InsertOperator | identity/enrich_operators.py:200-214 | the bare name, or `Name (CODE)` when it is taken; created or fetched |
| Enrich.OperatorTables.AttachNameVariants | identity/enrich_operators.py:191-197 | the three names as aliases, never one that is an org code |
| Enrich.OperatorTables.EnrichCode | identity/enrich_operators.py:273-297 | one GCAT owner code: skipped, already known, seed's, or new |
| Enrich.OperatorTables.EnrichGcat | identity/enrich_operators.py:266-297 | all GCAT owner codes in order |
| Enrich.OperatorTables.UpsertRelationship | identity/enrich_operators.py:217-231 | one edge per (child, parent, source); the primary key, which leaves the source out, may refuse it |
| Enrich.OperatorTables.AddParents | identity/enrich_operators.py:299-309 | the edges of all used codes, or the first refusal; `Enrich.ChildIsTheCode` and `Enrich.NewEdgesPointUp` say which way they point |
| Enrich.OperatorTables.EnrichOwner | identity/enrich_operators.py:314-332 | one SATCAT owner code: seed, name, or new |
| Enrich.OperatorTables.EnrichSatcat | identity/enrich_operators.py:311-332 | all SATCAT owner codes in order |
| Enrich.OperatorTables.Run | identity/enrich_operators.py:251-334 | the tables after `enrich`, unchanged on failure, and the number of operators created |
| Enrich.GcatRunFacts | identity/enrich_operators.py:266-297 | the GCAT pass only adds rows, and every used code ends with its own alias |
| Enrich.AllNamesTrack | identity/enrich_operators.py:119-133 | the name table agrees with the rows and holds every canonical name that has a key |
| Enrich.CreatedName | identity/enrich_operators.py:203 | a new SATCAT operator with a key gets its bare name: a name with a key nobody has is free |
| Enrich.SatcatRunFacts | identity/enrich_operators.py:313-332 | the name table stays in step with the rows, and every processed code ends aliased to its operator or, with a blank name, with that name taken |
| Enrich.SatcatQuietIff | identity/enrich_operators.py:313-332 | the SATCAT pass adds nothing if and only if no code would add something on its own |
| Enrich.SeedStable | identity/enrich_operators.py:136-158 | what the seed says does not depend on operators created later |
| Enrich.FirstRunFacts | identity/enrich_operators.py:251-334 | what one run leaves for the next |
| Enrich.SecondRunGcatQuiet | identity/enrich_operators.py:266-309 | the GCAT and parent passes of a second run add nothing, and each code keeps its operator |
| Enrich.SecondRunIff | identity/enrich_operators.py:251-334 | a second run succeeds, and adds no operator, alias or relationship if and only if every blank SATCAT name already has its bracketed operator |
| Enrich.EnrichIsIdempotent | identity/enrich_operators.py:251-334 | with normalised names that are not empty a second run changes nothing |
| Enrich.CodesKeepTheirOperator | identity/enrich_operators.py:314-332 | in a second run every documented code that the seed lists or whose name has a key goes to the operator its alias names |
| Enrich.BlankEndsBracketed | identity/enrich_operators.py:314-332 | a code with a blank name is aliased to its bracketed operator by the end of the second run |
| Enrich.BlankNameAddsAnOperator | identity/enrich_operators.py:320-332 | a blank name ("???"): the first run creates it, the second creates "??? (X)" beside it |
| Enrich.ThirdRunAddsNothing | identity/enrich_operators.py:251-334 | blank names included, a third run changes nothing |
| Enrich.CodesStayUnambiguous | identity/enrich_operators.py:191-197 | canonical names stay unique, and each used GCAT code points at exactly one operator |
| Enrich.SeedWins | identity/enrich_operators.py:282-297 | a used code seen for the first time goes to the operator the seed names for it |
| Enrich.ChildIsTheCode | identity/enrich_operators.py:299-309 | after a run a used code's operator is the child, and its used parent code's operator the parent, of an edge |
| Enrich.NewEdgesPointUp | identity/enrich_operators.py:299-309 | every edge a run adds goes from a used code's operator up to that of its used parent code, with the code's start date |
| Enrich.EdgeStepIs | identity/enrich_operators.py:217-231 | an edge is added unless one of the pair and source is there, and refused when the pair and start date are taken |
| Enrich.SeedForIs | identity/enrich_operators.py:136-158 | the seed operator for a value is the first in the file that exists and lists it |
| Enrich.SeedTargetIs | identity/enrich_operators.py:234-245 | by code, else by the first of name, English name and short name the seed knows |
| Enrich.DisplayNameIs | identity/enrich_operators.py:173-180 | the name, the English name when the name is not ASCII, else short name, else code |
| Enrich.InsertIs | identity/enrich_operators.py:200-214 | the name a new operator gets, bracketed exactly when it is taken |
| Enrich.GcatStepAliases | identity/enrich_operators.py:282-297 | a first-seen code adds its own alias and the org's names that are no codes, all to one operator |
| Enrich.GcatStepOperator | identity/enrich_operators.py:282-297 | that operator is the seed's, or the new one |
| Enrich.FoundIs | identity/enrich_operators.py:319-322 | the operator of a SATCAT code: the seed's by code, else the one known by the documented name |
| Enrich.SatcatStepIs | identity/enrich_operators.py:314-332 | a documented SATCAT code adds one alias, to the operator found or made, and the name of a new one is known from then on |
| Enrich.ByKeyIs | identity/enrich_operators.py:119-133 | the name table: the first operator with the key, else the first alias |
| Enrich.OtherCodesChangeNothing | identity/enrich_operators.py:269-275 | a code without an org or documentation, or known already, changes nothing |

## Left out

- Fetching, parsing and loading of the sources, report text, read-only queries, the MCP loop, the web client, the
  review tools and deployment scripts: input and output around the parts modelled here.
- Postgres itself: statements are atomic effects on sets, keys are checked by the model, and visibility inside
  a transaction is as in read committed with the advisory lock held.
- identity/claims.py:162-166: `record_all` drives the feeds in one transaction; the writers of the model commit
  one feed at a time. The choice of each feed's newest run and its rows are the arguments of a call.
- scripts/prune_snapshots.py:114-188: the row-count check of `delete_runs`, `compact`'s TRUNCATE and the modes.
- A client without a pacer (`pre_request` unset) and the fetching of a fleet from the database.
- Backfill.MonthlyWindows: a window in December 9999 raises in Python, because there is no next year; dates here
  have no last year.
- Progress lines, time estimates and the temporary file behind the checkpoint; its rename is atomic.
- Timestamps of retired links (`valid_to` is only set or not), confidences, and the details payloads of log rows
  and events.
- GcatLinks.BulkLink: the order of its log rows and events, and of the expiry events, is left open. Satellite ids are
  handed out in row order; the count of ambiguous COSPAR links is not modelled.
- GcatNights.SecondNightIff: like ThirdNightIff and EveryNightCreates, is stated for snapshots in which no anchored row carries the piece of a row its piece
  decides, since otherwise the order of the rows matters; `GcatNights.NextNightIff` covers every snapshot, on the
  tables before the second night.
- Pacing.SpaceTrackClient.Retrying: `budget` is how long the loop is watched, since it may not end; the code has none.
- The SATCAT and UCS link passes, which have the shape of the GCAT ones, and the probabilistic matcher.
- `set_enabled(False)` in api/cache.py, where every request computes for itself.
- Routes.Match: routes with `end` false, newlines in a path and the percent-encoding of printed segments are not
  modelled; parameter names are ASCII words.
- Rollup: the display values, the override marks and the participation credits built on the same walk.
- Aliases: trimming of the strings in the file and the reason texts of aliases; a bus entry's country.
- OperatorMerge.BusTable.AnnotateGroups: the leaf operator column is not modelled; nothing merges on it.
- OperatorMerge.BusTable.RecordRetired: which of several survivors a slug is redirected to, when two cohorts with
  one slug retire in one statement, is left open as it is in the source.
- Enrich.EnrichIsIdempotent: requires that every curated operator exists, as it does after the seed is loaded.
- Enrich.SecondRunIff: requires in addition that appending a bracketed code to a blank name leaves it blank, which the
  normalisation's removal of brackets provides.
- Enrich: country and class of an operator, the end date of a relationship, the counters other than operators created and
  edges added; scans return rows in insertion order.
- Track: rounding of the printed values; averages are exact.
