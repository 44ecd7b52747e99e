/** The nightly top-up: scripts/spacetrack_topup.py. The cursor row and the ingest ledger are the
    state; one night asks for the element sets created since the cursor, and moves the cursor only
    together with the ledger's 'ok'. Times are microseconds. */
module Topup {
  import opened Wrappers
  import opened Backfill

  const SECOND := 1_000_000
  const HOUR := 3600 * SECOND
  const DAY := 24 * HOUR
  const TOPUP_MIN_INTERVAL := 20 * HOUR
  const INITIAL_LOOKBACK := 3 * DAY
  const MAX_GAP := 30 * DAY
  const PUBLICATION_MARGIN := 2 * HOUR
  const EMPTY_WINDOW_MIN_IDS := 100
  const MAX_PLANNED_REQUESTS := 200

  /** `_naive_utc_seconds` */
  function ToSecond(t: int): int { t - t % SECOND }

  function WindowText(isoformat: int -> string, since: int, through: int): Window {
    (isoformat(since), isoformat(through))
  }

  datatype Status = Open | Ok | Error | SkippedFresh

  /** One ledger row of the top-up; a row stays `Open` when its process dies. */
  datatype Entry = Entry(status: Status, since: int, through: int, finishedAt: int)

  /** What one night meets. `databaseNow` is the database's clock, by which freshness is judged and
      runs are finished; `dies` is a process killed after the work and before the final commit. */
  datatype Night = Night(now: int, databaseNow: int, dryRun: bool, operatorsKnown: bool,
                         plan: seq<PlanEntry>, dies: bool)

  datatype Outcome =
    | Skipped | GapTooLong | EmptyWindow | OperatorsMissing | Planned
    | OverBudget | NoFleet | BatchFailed | NothingReturned | Died
    | Landed(rows: nat)

  function Fresh(ledger: seq<Entry>, databaseNow: int): bool {
    exists e :: e in ledger && e.status == Ok && e.finishedAt >= databaseNow - TOPUP_MIN_INTERVAL
  }

  function RawSince(cursor: Option<int>, now: int): int {
    if cursor.Some? then cursor.value else now - INITIAL_LOOKBACK
  }

  function Since(cursor: Option<int>, now: int): int { ToSecond(RawSince(cursor, now)) }

  function Through(now: int): int { ToSecond(now - PUBLICATION_MARGIN) }

  /** The night's window in microseconds: from the cursor, or three days back without one, to two hours
      ago, both cut to the second. */
  lemma WindowIs(cursor: Option<int>, now: int)
    ensures Through(now) % 1_000_000 == 0 && Through(now) <= now - 7_200_000_000 < Through(now) + 1_000_000
    ensures var raw := if cursor.Some? then cursor.value else now - 259_200_000_000;
      Since(cursor, now) % 1_000_000 == 0 && Since(cursor, now) <= raw < Since(cursor, now) + 1_000_000
  {
  }

  /** A night is skipped when an OK top-up finished in the last twenty hours. */
  lemma FreshIff(ledger: seq<Entry>, databaseNow: int)
    ensures Fresh(ledger, databaseNow) <==>
      exists i :: 0 <= i < |ledger| && ledger[i].status == Ok
        && databaseNow - ledger[i].finishedAt <= 72_000_000_000
  {
    if Fresh(ledger, databaseNow) {
      var e :| e in ledger && e.status == Ok && e.finishedAt >= databaseNow - TOPUP_MIN_INTERVAL;
      var i :| 0 <= i < |ledger| && ledger[i] == e;
    }
    if exists i :: 0 <= i < |ledger| && ledger[i].status == Ok && databaseNow - ledger[i].finishedAt <= 72_000_000_000 {
      var i :| 0 <= i < |ledger| && ledger[i].status == Ok && databaseNow - ledger[i].finishedAt <= 72_000_000_000;
      assert ledger[i] in ledger;
    }
  }

  function PlannedRequests(plan: seq<PlanEntry>): nat {
    if plan == [] then 0
    else |Chunk(plan[0].ids, BATCH_SIZE)| + PlannedRequests(plan[1..])
  }

  function IdCount(plan: seq<PlanEntry>): nat {
    if plan == [] then 0 else |plan[0].ids| + IdCount(plan[1..])
  }

  ghost predicate AllLanded(plan: seq<PlanEntry>, w: Window, landed: set<Request>) {
    forall p :: p in plan ==> UnitLanded(p, w, landed)
  }

  // ----- the chain of OK windows --------------------------------------------------------

  /** The windows of the nights that counted, oldest first. */
  ghost function OkWindows(ledger: seq<Entry>): seq<(int, int)> {
    if ledger == [] then []
    else
      var last := ledger[|ledger| - 1];
      OkWindows(ledger[..|ledger| - 1]) + (if last.status == Ok then [(last.since, last.through)] else [])
  }

  lemma OkWindowsAppend(ledger: seq<Entry>, e: Entry)
    ensures OkWindows(ledger + [e])
         == OkWindows(ledger) + (if e.status == Ok then [(e.since, e.through)] else [])
  {
    assert (ledger + [e])[..|ledger|] == ledger;
  }

  /** The OK windows are non-empty, whole seconds, and each starts where the one before it ended;
      the cursor is where the last one ended. */
  ghost predicate Chained(cursor: Option<int>, windows: seq<(int, int)>) {
    && (forall i :: 0 <= i < |windows| ==> windows[i].0 < windows[i].1)
    && (forall i, j :: 0 <= i < j < |windows| && j == i + 1 ==> windows[i].1 == windows[j].0)
    && (windows == [] <==> cursor.None?)
    && (windows != [] ==> cursor == Some(windows[|windows| - 1].1) && cursor.value % SECOND == 0)
  }

  lemma ChainGrows(cursor: Option<int>, windows: seq<(int, int)>, now: int)
    requires Chained(cursor, windows) && Since(cursor, now) < Through(now)
    ensures Chained(Some(Through(now)), windows + [(Since(cursor, now), Through(now))])
    ensures cursor.Some? ==> Since(cursor, now) == cursor.value
  {
  }

  /** No moment is asked for twice, and none between the first OK night and the cursor is missed. */
  lemma EveryMomentOnce(cursor: Option<int>, windows: seq<(int, int)>, t: int)
    requires Chained(cursor, windows) && windows != []
    ensures windows[0].0 <= t < cursor.value <==>
      exists i :: 0 <= i < |windows| && windows[i].0 <= t < windows[i].1
    ensures forall i, j | 0 <= i < j < |windows| :: windows[i].1 <= windows[j].0
  {
    WindowsCover(windows, t);
  }

  lemma {:induction false} WindowsCover(windows: seq<(int, int)>, t: int)
    requires windows != []
    requires forall i :: 0 <= i < |windows| ==> windows[i].0 < windows[i].1
    requires forall i, j :: 0 <= i < j < |windows| && j == i + 1 ==> windows[i].1 == windows[j].0
    ensures windows[0].0 <= t < windows[|windows| - 1].1 <==>
      exists i :: 0 <= i < |windows| && windows[i].0 <= t < windows[i].1
    ensures forall i, j | 0 <= i < j < |windows| :: windows[i].1 <= windows[j].0
    ensures forall i :: 0 <= i < |windows| ==> windows[0].0 <= windows[i].0
  {
    var n := |windows|;
    if n > 1 {
      var init := windows[..n - 1];
      WindowsCover(init, t);
      if windows[0].0 <= t < windows[n - 2].1 {
        var i :| 0 <= i < |init| && init[i].0 <= t < init[i].1;
        assert windows[i].0 <= t < windows[i].1;
      }
      forall i, j | 0 <= i < j < n ensures windows[i].1 <= windows[j].0 {
        if j < n - 1 {
          assert init[i].1 <= init[j].0;
        } else if i < n - 2 {
          assert init[i].1 <= init[n - 2].0;
        }
      }
      forall i | 0 <= i < n ensures windows[0].0 <= windows[i].0 {
        if i < n - 1 { assert init[0].0 <= init[i].0; } else { assert init[0].0 <= init[n - 2].0; }
      }
    }
  }

  // ----- one night ----------------------------------------------------------------------

  class Database {
    const isoformat: int -> string
    var cursor: Option<int>
    var ledger: seq<Entry>

    constructor (isoformat: int -> string)
      ensures this.isoformat == isoformat && cursor == None && ledger == []
    {
      this.isoformat := isoformat;
      cursor, ledger := None, [];
    }

    ghost predicate Chain()
      reads this
    {
      Chained(cursor, OkWindows(ledger))
    }

    method StartRun(since: int, through: int)
      modifies this`ledger
      ensures ledger == old(ledger) + [Entry(Open, since, through, 0)]
    {
      ledger := ledger + [Entry(Open, since, through, 0)];
    }

    /** Finish the row just opened. The caller's pending cursor write, if any, commits with it. */
    method FinishRun(status: Status, at: int, newCursor: Option<int>)
      requires ledger != []
      modifies this
      ensures ledger == old(ledger)[..|old(ledger)| - 1]
        + [old(ledger)[|old(ledger)| - 1].(status := status, finishedAt := at)]
      ensures cursor == if newCursor.Some? then newCursor else old(cursor)
    {
      ledger := ledger[|ledger| - 1 := ledger[|ledger| - 1].(status := status, finishedAt := at)];
      if newCursor.Some? {
        cursor := newCursor;
      }
    }
  }

  /** Refused before the window is looked at. */
  predicate Early(refused: Option<Outcome>) { refused == Some(Skipped) || refused == Some(GapTooLong) }

  /** The branches of `gp_topup` before any ledger row is opened, and the window otherwise. Each
      refusal is returned exactly when its condition holds and no earlier one did. */
  method Refusal(db: Database, night: Night) returns (refused: Option<Outcome>, since: int, through: int)
    ensures since == Since(db.cursor, night.now) && through == Through(night.now)
    ensures refused == Some(Skipped) <==> !night.dryRun && Fresh(db.ledger, night.databaseNow)
    ensures refused != Some(Skipped) ==>
      (refused == Some(GapTooLong) <==>
        night.now - 7_200_000_000 - RawSince(db.cursor, night.now) > 2_592_000_000_000)
    ensures refused == Some(EmptyWindow) <==>
      !Early(refused) && through <= since
    ensures refused == Some(OperatorsMissing) <==>
      !Early(refused) && since < through && !night.operatorsKnown
    ensures refused == Some(Planned) <==>
      !Early(refused) && since < through && night.operatorsKnown && night.dryRun
    ensures refused == Some(OverBudget) <==>
      && !Early(refused) && since < through && night.operatorsKnown && !night.dryRun
      && PlannedRequests(night.plan) > 200
    ensures refused.Some? ==>
      refused.value in {Skipped, GapTooLong, EmptyWindow, OperatorsMissing, Planned, OverBudget}
    ensures refused.None? <==>
      && (night.dryRun || !Fresh(db.ledger, night.databaseNow))
      && night.now - 7_200_000_000 - RawSince(db.cursor, night.now) <= 2_592_000_000_000
      && since < through && night.operatorsKnown && !night.dryRun
      && PlannedRequests(night.plan) <= 200
  {
    var raw, upper := RawSince(db.cursor, night.now), night.now - PUBLICATION_MARGIN;
    since, through := ToSecond(raw), ToSecond(upper);
    if !night.dryRun && Fresh(db.ledger, night.databaseNow) {
      refused := Some(Skipped);
    } else if upper - raw > MAX_GAP {
      refused := Some(GapTooLong);
    } else if through <= since {
      refused := Some(EmptyWindow);
    } else if !night.operatorsKnown {
      refused := Some(OperatorsMissing);
    } else if night.dryRun {
      refused := Some(Planned);
    } else if PlannedRequests(night.plan) > MAX_PLANNED_REQUESTS {
      refused := Some(OverBudget);
    } else {
      refused := None;
    }
  }

  /** The run itself: every batch of the window, then the verdict on what came back. Nothing is
      written to the cursor or the ledger. */
  method Pull(job: BackfillJob, plan: seq<PlanEntry>, window: Window) returns (r: Result<nat, Outcome>)
    requires job.Resumable() && NeverStops(job.stop) && WellFormed(plan, [])
    modifies job
    ensures job.Resumable()
    ensures r.Failure? ==> r.error in {NoFleet, BatchFailed, NothingReturned}
    ensures r == Failure(NoFleet) <==> IdCount(plan) == 0
    ensures r == Failure(NoFleet) ==> job.requests == old(job.requests)
    ensures r == Failure(NothingReturned) ==> EMPTY_WINDOW_MIN_IDS <= IdCount(plan)
    ensures r.Success? ==>
      AllLanded(plan, window, job.landed) && (r.value > 0 || IdCount(plan) < EMPTY_WINDOW_MIN_IDS)
    ensures old(job.landed) <= job.landed
    ensures |old(job.requests)| <= |job.requests|
    ensures r == Failure(BatchFailed) <==>
      IdCount(plan) != 0 && SomeFailed(job.fetch, |old(job.requests)|, |job.requests|)
    ensures r == Failure(NothingReturned) <==>
      && IdCount(plan) >= 100 && !SomeFailed(job.fetch, |old(job.requests)|, |job.requests|)
      && Fetched(job.fetch, |old(job.requests)|, |job.requests|) == 0
    ensures r.Success? ==> r.value == Fetched(job.fetch, |old(job.requests)|, |job.requests|)
  {
    if IdCount(plan) == 0 {
      return Failure(NoFleet);
    }
    job.Reset();
    var summary := RunBackfill(job, plan, [window]);
    if summary.Failure? {
      return Failure(BatchFailed);
    }
    var rows := summary.value.cumulativeRows;
    if rows == 0 && IdCount(plan) >= EMPTY_WINDOW_MIN_IDS {
      return Failure(NothingReturned);
    }
    assert window in [window];
    r := Success(rows);
  }

  /** What a night may do to the cursor and the ledger: a night that landed appends its window to
      the chain and moves the cursor to its end, both or neither, and any other leaves both. */
  ghost predicate NightEffect(cursor: Option<int>, windows: seq<(int, int)>, newCursor: Option<int>,
                              newWindows: seq<(int, int)>, now: int, outcome: Outcome) {
    if outcome.Landed? then
      && Since(cursor, now) < Through(now)
      && newCursor == Some(Through(now))
      && newWindows == windows + [(Since(cursor, now), Through(now))]
    else newCursor == cursor && newWindows == windows
  }

  /** The row of a skipped night. */
  method RecordSkip(db: Database, at: int)
    modifies db
    ensures db.cursor == old(db.cursor)
    ensures db.ledger == old(db.ledger) + [Entry(SkippedFresh, 0, 0, at)]
    ensures OkWindows(db.ledger) == OkWindows(old(db.ledger))
  {
    OkWindowsAppend(db.ledger, Entry(SkippedFresh, 0, 0, at));
    db.StartRun(0, 0);
    db.FinishRun(SkippedFresh, at, None);
  }

  /** The row a night leaves: OK when it landed, still open when its process died, an error otherwise. */
  function ClosedRow(night: Night, since: int, through: int, outcome: Outcome): Entry {
    match outcome
    case Landed(_) => Entry(Ok, since, through, night.databaseNow)
    case Died => Entry(Open, since, through, 0)
    case _ => Entry(Error, since, through, night.databaseNow)
  }

  /** Close the night's ledger row, the cursor with it when the night counts. */
  method Settle(db: Database, night: Night, since: int, through: int, r: Result<nat, Outcome>)
    returns (outcome: Outcome)
    requires db.ledger != [] && db.ledger[|db.ledger| - 1] == Entry(Open, since, through, 0)
    requires since == Since(db.cursor, night.now) < through == Through(night.now)
    requires r.Failure? ==> !r.error.Landed? && !r.error.Died?
    modifies db
    ensures NightEffect(old(db.cursor), OkWindows(old(db.ledger)), db.cursor, OkWindows(db.ledger),
                        night.now, outcome)
    ensures outcome == if r.Failure? then r.error else if night.dies then Died else Landed(r.value)
    ensures db.ledger == old(db.ledger)[..|old(db.ledger)| - 1] + [ClosedRow(night, since, through, outcome)]
  {
    ghost var before := db.ledger[..|db.ledger| - 1];
    assert db.ledger == before + [Entry(Open, since, through, 0)];
    OkWindowsAppend(before, Entry(Open, since, through, 0));
    if r.Failure? {
      OkWindowsAppend(before, Entry(Error, since, through, night.databaseNow));
      db.FinishRun(Error, night.databaseNow, None);
      return r.error;
    }
    if night.dies {
      return Died;
    }
    OkWindowsAppend(before, Entry(Ok, since, through, night.databaseNow));
    db.FinishRun(Ok, night.databaseNow, Some(through));
    outcome := Landed(r.value);
  }

  /** What a night that landed had: every planned batch of its window, within the budget, and rows unless the
      fleet is small; the rows are what its requests brought, and none of them failed. */
  ghost predicate LandedAll(night: Night, window: Window, landed: set<Request>, fetch: nat -> Fetch, from: nat,
                            to: nat, rows: nat) {
    && AllLanded(night.plan, window, landed) && PlannedRequests(night.plan) <= 200
    && (rows > 0 || 0 < IdCount(night.plan) < 100)
    && from <= to && !SomeFailed(fetch, from, to) && rows == Fetched(fetch, from, to)
  }

  /** The night once nothing refuses it: the ledger row, the pull, the settlement. */
  method PullWindow(db: Database, job: BackfillJob, night: Night, since: int, through: int)
    returns (outcome: Outcome)
    requires job.Resumable() && NeverStops(job.stop) && WellFormed(night.plan, [])
    requires since == Since(db.cursor, night.now) < through == Through(night.now)
    requires PlannedRequests(night.plan) <= 200
    modifies db, job
    ensures job.Resumable() && old(job.landed) <= job.landed
    ensures NightEffect(old(db.cursor), OkWindows(old(db.ledger)), db.cursor, OkWindows(db.ledger),
                        night.now, outcome)
    ensures outcome.Landed? ==>
      LandedAll(night, WindowText(db.isoformat, since, through), job.landed, job.fetch, |old(job.requests)|,
                |job.requests|, outcome.rows)
    ensures outcome.Landed? || outcome in {NoFleet, BatchFailed, NothingReturned, Died}
    ensures db.ledger == old(db.ledger) + [ClosedRow(night, since, through, outcome)]
    ensures outcome == NoFleet ==> job.requests == old(job.requests)
  {
    ghost var ledger := db.ledger;
    db.StartRun(since, through);
    OkWindowsAppend(ledger, Entry(Open, since, through, 0));
    var r := Pull(job, night.plan, WindowText(db.isoformat, since, through));
    outcome := Settle(db, night, since, through, r);
  }

  /** The ledger rows of a night: one when it was skipped as fresh, one when the pull was begun. */
  function LedgerRows(night: Night, cursor: Option<int>, outcome: Outcome): seq<Entry> {
    match outcome
    case Skipped => [Entry(SkippedFresh, 0, 0, night.databaseNow)]
    case GapTooLong => []
    case EmptyWindow => []
    case OperatorsMissing => []
    case Planned => []
    case OverBudget => []
    case _ => [ClosedRow(night, Since(cursor, night.now), Through(night.now), outcome)]
  }

  /** `gp_topup` */
  method GpTopup(db: Database, job: BackfillJob, night: Night) returns (outcome: Outcome)
    requires db.Chain() && job.Resumable() && NeverStops(job.stop) && WellFormed(night.plan, [])
    modifies db, job
    ensures db.Chain() && job.Resumable()
    ensures NightEffect(old(db.cursor), OkWindows(old(db.ledger)), db.cursor, OkWindows(db.ledger),
                        night.now, outcome)
    ensures outcome.Landed? ==>
      LandedAll(night, WindowText(db.isoformat, Since(old(db.cursor), night.now), Through(night.now)), job.landed,
                job.fetch, |old(job.requests)|, |job.requests|, outcome.rows)
    ensures |job.requests| != |old(job.requests)| ==>
      outcome.Landed? || outcome in {BatchFailed, NothingReturned, Died}
    ensures outcome == Skipped <==> !night.dryRun && Fresh(old(db.ledger), night.databaseNow)
    ensures db.ledger == old(db.ledger) + LedgerRows(night, old(db.cursor), outcome)
    ensures old(job.landed) <= job.landed
  {
    var refused, since, through := Refusal(db, night);
    if refused.Some? {
      if refused.value == Skipped {
        RecordSkip(db, night.databaseNow);
      }
      return refused.value;
    }
    ghost var ledger := db.ledger;
    outcome := PullWindow(db, job, night, since, through);
    if outcome.Landed? {
      ChainGrows(old(db.cursor), OkWindows(ledger), night.now);
    }
  }

  /** The night that counted for a window: its window, and every batch planned for it landed. */
  ghost predicate Counted(isoformat: int -> string, night: Night, window: (int, int), landed: set<Request>) {
    && Through(night.now) == window.1
    && AllLanded(night.plan, WindowText(isoformat, window.0, window.1), landed)
  }

  /** The windows from place `start` on are those of the counted nights, in order. */
  ghost predicate AllCounted(isoformat: int -> string, windows: seq<(int, int)>, start: nat, counted: seq<Night>,
                             landed: set<Request>) {
    && |windows| == start + |counted|
    && forall i :: 0 <= i < |counted| ==> Counted(isoformat, counted[i], windows[start + i], landed)
  }

  lemma CountedGrows(isoformat: int -> string, windows: seq<(int, int)>, start: nat, counted: seq<Night>,
                     landed: set<Request>, more: set<Request>, window: (int, int), night: Night)
    requires AllCounted(isoformat, windows, start, counted, landed) && landed <= more
    ensures AllCounted(isoformat, windows, start, counted, more)
    ensures Counted(isoformat, night, window, more) ==>
      AllCounted(isoformat, windows + [window], start, counted + [night], more)
  {
    forall i | 0 <= i < |counted| ensures Counted(isoformat, counted[i], windows[start + i], more) {
      assert Counted(isoformat, counted[i], windows[start + i], landed);
    }
  }

  /** Any history of nights: the chain holds after every one of them, the cursor never moves back, and
      every window added to the ledger as OK had all the batches its night planned landed. */
  method RunNights(db: Database, job: BackfillJob, nights: seq<Night>) returns (ghost counted: seq<Night>)
    requires db.Chain() && job.Resumable() && NeverStops(job.stop)
    requires forall i :: 0 <= i < |nights| ==> WellFormed(nights[i].plan, [])
    modifies db, job
    ensures db.Chain()
    ensures OkWindows(old(db.ledger)) <= OkWindows(db.ledger)
    ensures old(db.cursor).Some? ==> db.cursor.Some? && old(db.cursor).value <= db.cursor.value
    ensures forall night :: night in counted ==> night in nights
    ensures AllCounted(db.isoformat, OkWindows(db.ledger), |OkWindows(old(db.ledger))|, counted, job.landed)
  {
    counted := [];
    ghost var start := |OkWindows(db.ledger)|;
    for n := 0 to |nights|
      invariant db.Chain() && job.Resumable()
      invariant OkWindows(old(db.ledger)) <= OkWindows(db.ledger)
      invariant old(db.cursor).Some? ==> db.cursor.Some? && old(db.cursor).value <= db.cursor.value
      invariant forall night :: night in counted ==> night in nights
      invariant AllCounted(db.isoformat, OkWindows(db.ledger), start, counted, job.landed)
    {
      ghost var windows, landed := OkWindows(db.ledger), job.landed;
      ghost var window := (Since(db.cursor, nights[n].now), Through(nights[n].now));
      var outcome := GpTopup(db, job, nights[n]);
      CountedGrows(db.isoformat, windows, start, counted, landed, job.landed, window, nights[n]);
      if outcome.Landed? {
        assert OkWindows(db.ledger) == windows + [window];
        counted := counted + [nights[n]];
      }
    }
  }
}
