/** The resumable backfill: scripts/backfill_gp_history.py. Windows and chunks cut the work into a
    grid of (operator, window) units of one request per 100 ids; the checkpoint file remembers the
    completed units across stops, failures and restarts. */
module Backfill {
  import opened Wrappers

  const BATCH_SIZE := 100

  // ----- calendar windows ---------------------------------------------------------------

  datatype Date = Date(year: int, month: int, day: int)

  ghost predicate Valid(d: Date) {
    1 <= d.year <= 9999 && 1 <= d.month <= 12 && 1 <= d.day <= 31
  }

  predicate Before(a: Date, b: Date) {
    || a.year < b.year
    || (a.year == b.year && (a.month < b.month || (a.month == b.month && a.day < b.day)))
  }

  function FirstOfNextMonth(d: Date): Date {
    if d.month == 12 then Date(d.year + 1, 1, 1) else Date(d.year, d.month + 1, 1)
  }

  type DateWindow = (Date, Date)

  /** The windows tile [since, until): each starts where the one before it ends. */
  ghost predicate Tiles(windows: seq<DateWindow>, since: Date, until: Date) {
    if windows == [] then !Before(since, until)
    else
      && windows[0].0 == since
      && windows[|windows| - 1].1 == until
      && (forall i, j :: 0 <= i < j < |windows| && j == i + 1 ==> windows[i].1 == windows[j].0)
      && (forall i :: 0 <= i < |windows| ==> Before(windows[i].0, windows[i].1))
  }

  /** Every date of the window lies in the calendar month of its first. */
  ghost predicate WithinOneMonth(w: DateWindow) {
    forall d :: Valid(d) && !Before(d, w.0) && Before(d, w.1) ==>
      d.year == w.0.year && d.month == w.0.month
  }

  method MonthlyWindows(since: Date, until: Date) returns (windows: seq<DateWindow>)
    requires Valid(since) && Valid(until)
    ensures Tiles(windows, since, until)
    ensures forall i :: 0 <= i < |windows| ==> WithinOneMonth(windows[i])
  {
    windows := [];
    var cur := since;
    while Before(cur, until)
      invariant 1 <= cur.month <= 12 && cur.day >= 1
      invariant windows == [] ==> cur == since
      invariant windows != [] ==> windows[0].0 == since
      invariant forall i, j :: 0 <= i < j < |windows| && j == i + 1 ==> windows[i].1 == windows[j].0
      invariant forall i :: 0 <= i < |windows| ==>
        Before(windows[i].0, windows[i].1) && WithinOneMonth(windows[i])
      invariant windows != [] ==>
        windows[|windows| - 1].1 == if Before(cur, until) then cur else until
      decreases until.year * 12 + until.month - (cur.year * 12 + cur.month) + 1
    {
      var next := FirstOfNextMonth(cur);
      var end := if Before(until, next) then until else next;
      windows := windows + [(cur, end)];
      cur := next;
    }
  }

  /** The windows partition [since, until): every date of the range is in exactly one. */
  lemma EveryDateInOneWindow(windows: seq<DateWindow>, since: Date, until: Date, d: Date)
    requires Tiles(windows, since, until)
    ensures !Before(d, since) && Before(d, until) <==>
      exists i :: 0 <= i < |windows| && !Before(d, windows[i].0) && Before(d, windows[i].1)
    ensures forall i, j | 0 <= i < |windows| && 0 <= j < |windows|
      && !Before(d, windows[i].0) && Before(d, windows[i].1)
      && !Before(d, windows[j].0) && Before(d, windows[j].1) :: i == j
  {
    if windows != [] {
      WindowsAscend(windows, since, until);
      if !Before(d, since) && Before(d, until) {
        var i := 0;
        while !Before(d, windows[i].1)
          invariant 0 <= i < |windows| && !Before(d, windows[i].0)
          decreases |windows| - i
        {
          i := i + 1;
        }
      }
    }
  }

  lemma {:induction false} WindowsAscend(windows: seq<DateWindow>, since: Date, until: Date)
    requires Tiles(windows, since, until) && windows != []
    ensures forall i, j :: 0 <= i < j < |windows| ==> !Before(windows[j].0, windows[i].1)
    ensures forall i :: 0 <= i < |windows| ==>
      !Before(windows[i].0, since) && !Before(until, windows[i].1)
  {
    var n := |windows|;
    if n > 1 {
      var init := windows[..n - 1];
      assert Tiles(init, since, windows[n - 2].1);
      WindowsAscend(init, since, windows[n - 2].1);
      forall i, j | 0 <= i < j < n ensures !Before(windows[j].0, windows[i].1) {
        if j == n - 1 && i < n - 2 {
          assert !Before(init[n - 2].0, init[i].1);
        } else if j < n - 1 {
          assert !Before(init[j].0, init[i].1);
        }
      }
      forall i | 0 <= i < n ensures !Before(windows[i].0, since) && !Before(until, windows[i].1) {
        if i < n - 1 {
          assert !Before(init[i].0, since) && !Before(windows[n - 2].1, init[i].1);
        } else {
          assert !Before(init[n - 2].0, since);
        }
      }
    }
  }

  // ----- chunks -------------------------------------------------------------------------

  function Chunk(ids: seq<int>, size: nat): seq<seq<int>>
    requires size > 0
  {
    if ids == [] then []
    else if |ids| <= size then [ids]
    else [ids[..size]] + Chunk(ids[size..], size)
  }

  function Concat(batches: seq<seq<int>>): seq<int> {
    if batches == [] then [] else batches[0] + Concat(batches[1..])
  }

  /** The batches in order give the ids back; all but the last are full and none is empty, so
      there are exactly enough of them to hold the ids. */
  lemma OneChunkMore(n: int, size: int)
    ensures (n + 1) * size == n * size + size && (n - 1) * size == n * size - size
  {
  }

  lemma {:induction false} ChunksCoverIds(ids: seq<int>, size: nat)
    requires size > 0
    ensures Concat(Chunk(ids, size)) == ids
    ensures (|Chunk(ids, size)| - 1) * size < |ids| <= |Chunk(ids, size)| * size || ids == []
    ensures ids == [] <==> Chunk(ids, size) == []
    ensures forall i :: 0 <= i < |Chunk(ids, size)| ==> 0 < |Chunk(ids, size)[i]| <= size
    ensures forall i :: 0 <= i < |Chunk(ids, size)| - 1 ==> |Chunk(ids, size)[i]| == size
  {
    if |ids| > size {
      var rest := Chunk(ids[size..], size);
      ChunksCoverIds(ids[size..], size);
      assert ([ids[..size]] + rest)[1..] == rest;
      assert ids == ids[..size] + ids[size..];
      OneChunkMore(|rest|, size);
    } else if ids != [] {
      assert Concat([ids]) == ids + Concat([]);
    }
  }

  /** `make_plan`'s estimate, ceil(len(ids) / 100), is the number of requests of a unit. */
  lemma EstimateIsBatchCount(ids: seq<int>)
    ensures |Chunk(ids, BATCH_SIZE)| == (|ids| + 99) / 100
  {
    ChunksCoverIds(ids, BATCH_SIZE);
  }

  /** `_chunk`, the generator, collected. */
  method ChunkList(items: seq<int>, size: nat) returns (batches: seq<seq<int>>)
    requires size > 0
    ensures batches == Chunk(items, size)
  {
    batches := [];
    var i := 0;
    while i < |items|
      invariant 0 <= i
      invariant Chunk(items, size) == batches + (if i < |items| then Chunk(items[i..], size) else [])
    {
      var to := if i + size < |items| then i + size else |items|;
      if i + size < |items| {
        assert items[i..][..size] == items[i..to];
        assert items[i..][size..] == items[i + size..];
      } else {
        assert items[i..] == items[i..to];
      }
      batches := batches + [items[i..to]];
      i := i + size;
    }
  }

  // ----- unit keys ----------------------------------------------------------------------

  /** A window as the two ISO strings that go into the query and into the key. */
  type Window = (string, string)

  function UnitKey(operator: string, window: Window): string {
    operator + "|" + window.0 + "|" + window.1
  }

  /** ISO dates have one length, so two units never share a key, whatever the operator names. */
  lemma UnitKeyInjective(op1: string, w1: Window, op2: string, w2: Window)
    requires |w1.0| == |w2.0| && |w1.1| == |w2.1|
    requires UnitKey(op1, w1) == UnitKey(op2, w2)
    ensures op1 == op2 && w1 == w2
  {
    var k1, k2 := UnitKey(op1, w1), UnitKey(op2, w2);
    var n := |op1|;
    assert |op2| == n;
    assert k1[..n] == op1 && k2[..n] == op2;
    assert k1[n + 1..n + 1 + |w1.0|] == w1.0 && k2[n + 1..n + 1 + |w2.0|] == w2.0;
    assert k1[n + 2 + |w1.0|..] == w1.1 && k2[n + 2 + |w2.0|..] == w2.1;
  }

  /** The key is the operator and the two dates, with a bar between. */
  lemma UnitKeyReads(operator: string, window: Window)
    ensures var (key, i) := (UnitKey(operator, window), |operator|);
      var j := i + 1 + |window.0|;
      && |key| == j + 1 + |window.1|
      && key[..i] == operator && key[i] == '|' && key[i + 1..j] == window.0
      && key[j] == '|' && key[j + 1..] == window.1
  {
  }

  const DIGITS := "0123456789"

  function Padded(n: nat, width: nat): (s: string)
    ensures |s| == width
  {
    if width == 0 then "" else Padded(n / 10, width - 1) + [DIGITS[n % 10]]
  }

  function Pow10(n: nat): nat {
    if n == 0 then 1 else 10 * Pow10(n - 1)
  }

  lemma {:induction false} PaddedInjective(a: nat, b: nat, width: nat)
    requires a < Pow10(width) && b < Pow10(width)
    requires Padded(a, width) == Padded(b, width)
    ensures a == b
  {
    if width > 0 {
      var s, t := Padded(a, width), Padded(b, width);
      assert s[..width - 1] == Padded(a / 10, width - 1) && t[..width - 1] == Padded(b / 10, width - 1);
      assert s[width - 1] == DIGITS[a % 10] && t[width - 1] == DIGITS[b % 10];
      PaddedInjective(a / 10, b / 10, width - 1);
    }
  }

  /** date.isoformat() */
  function Iso(d: Date): (s: string)
    requires Valid(d)
    ensures |s| == 10
  {
    Padded(d.year, 4) + "-" + Padded(d.month, 2) + "-" + Padded(d.day, 2)
  }

  function NumberIn(s: string): int {
    if s == "" then 0 else 10 * NumberIn(s[..|s| - 1]) + (s[|s| - 1] as int - '0' as int)
  }

  /** Padding keeps the number. */
  lemma {:induction false} PaddedReads(n: nat, width: nat)
    requires n < Pow10(width)
    ensures NumberIn(Padded(n, width)) == n
  {
    if width > 0 {
      PaddedReads(n / 10, width - 1);
      var s := Padded(n, width);
      assert s[..|s| - 1] == Padded(n / 10, width - 1);
    }
  }

  /** A date is printed as year, month and day in figures, with hyphens between. */
  lemma IsoReads(d: Date)
    requires Valid(d)
    ensures var s := Iso(d);
      && NumberIn(s[..4]) == d.year && s[4] == '-' && NumberIn(s[5..7]) == d.month && s[7] == '-'
      && NumberIn(s[8..]) == d.day
  {
    var s := Iso(d);
    assert s[..4] == Padded(d.year, 4) && s[5..7] == Padded(d.month, 2) && s[8..] == Padded(d.day, 2);
    assert Pow10(2) == 100 && Pow10(4) == 10000;
    PaddedReads(d.year, 4);
    PaddedReads(d.month, 2);
    PaddedReads(d.day, 2);
  }

  lemma IsoInjective(a: Date, b: Date)
    requires Valid(a) && Valid(b) && Iso(a) == Iso(b)
    ensures a == b
  {
    var s, t := Iso(a), Iso(b);
    assert s[..4] == Padded(a.year, 4) && t[..4] == Padded(b.year, 4);
    assert s[5..7] == Padded(a.month, 2) && t[5..7] == Padded(b.month, 2);
    assert s[8..] == Padded(a.day, 2) && t[8..] == Padded(b.day, 2);
    assert Pow10(2) == 100 && Pow10(4) == 10000;
    PaddedInjective(a.year, b.year, 4);
    PaddedInjective(a.month, b.month, 2);
    PaddedInjective(a.day, b.day, 2);
  }

  // ----- the runner ---------------------------------------------------------------------

  datatype PlanEntry = PlanEntry(operator: string, ids: seq<int>)

  /** One gp_history request: one batch of one unit. */
  datatype Request = Request(operator: string, window: Window, ids: seq<int>)

  /** What the client does with a request: rows to land, or an exception. */
  datatype Fetch = Rows(count: nat) | Failed

  function FetchOf(fetch: nat -> Fetch, n: nat): Fetch { fetch(n) }

  /** Some request of a stretch failed. */
  ghost predicate SomeFailed(fetch: nat -> Fetch, from: nat, to: nat) {
    exists i: nat :: from <= i < to && FetchOf(fetch, i).Failed?
  }

  /** The rows the requests of a stretch brought. */
  ghost function Fetched(fetch: nat -> Fetch, from: nat, to: nat): nat
    decreases to
  {
    if to <= from then 0
    else Fetched(fetch, from, to - 1) + (match FetchOf(fetch, to - 1) case Rows(n) => n case Failed => 0)
  }

  lemma {:induction false} FetchedJoins(fetch: nat -> Fetch, a: nat, b: nat, c: nat)
    requires a <= b <= c
    ensures Fetched(fetch, a, c) == Fetched(fetch, a, b) + Fetched(fetch, b, c)
    ensures SomeFailed(fetch, a, c) <==> SomeFailed(fetch, a, b) || SomeFailed(fetch, b, c)
    decreases c
  {
    if b < c { FetchedJoins(fetch, a, b, c - 1); }
  }

  datatype UnitRecord = UnitRecord(rows: nat, requests: nat)

  datatype Summary = Summary(stopped: bool, requestsIssued: nat, cumulativeRows: nat)

  datatype Abort = FetchFailed

  /** The operators of a plan are distinct (`resolve_operators` removes duplicates), and the
      windows are printed in one format. */
  ghost predicate WellFormed(plan: seq<PlanEntry>, windows: seq<Window>) {
    && (forall i, j :: 0 <= i < j < |plan| ==> plan[i].operator != plan[j].operator)
    && (forall v, w :: v in windows && w in windows ==> |v.0| == |w.0| && |v.1| == |w.1|)
  }

  ghost predicate UnitLanded(p: PlanEntry, w: Window, landed: set<Request>) {
    forall b :: b in Chunk(p.ids, BATCH_SIZE) ==> Request(p.operator, w, b) in landed
  }

  /** A checkpointed unit of the plan has every batch landed. */
  ghost predicate Covered(plan: seq<PlanEntry>, windows: seq<Window>, units: map<string, UnitRecord>,
                          landed: set<Request>) {
    forall p, w :: p in plan && w in windows && UnitKey(p.operator, w) in units ==>
      UnitLanded(p, w, landed)
  }

  /** Sum of the rows of the checkpointed units. */
  ghost function RowsDone(units: map<string, UnitRecord>): nat {
    if units == map[] then 0
    else
      var k :| k in units;
      units[k].rows + RowsDone(units - {k})
  }

  lemma {:induction false} RowsDoneRemove(units: map<string, UnitRecord>, k: string)
    requires k in units
    ensures RowsDone(units) == units[k].rows + RowsDone(units - {k})
  {
    var j :| j in units && RowsDone(units) == units[j].rows + RowsDone(units - {j});
    if j != k {
      RowsDoneRemove(units - {j}, k);
      RowsDoneRemove(units - {k}, j);
      assert units - {j} - {k} == units - {k} - {j};
    }
  }

  lemma RowsDoneAdd(units: map<string, UnitRecord>, k: string, u: UnitRecord)
    requires k !in units
    ensures RowsDone(units[k := u]) == RowsDone(units) + u.rows
  {
    RowsDoneRemove(units[k := u], k);
    assert units[k := u] - {k} == units;
  }

  /** One process working on the grid, with the checkpoint file, the landed rows and the requests
      of every run so far. `fetch(n)` is what happens to the n-th request ever made and `stop(n)`
      what the n-th look at the stop flag sees. */
  class BackfillJob {
    const fetch: nat -> Fetch
    const stop: nat -> bool
    var units: map<string, UnitRecord>   // Checkpoint.units
    var file: map<string, UnitRecord>    // the checkpoint file
    var landed: set<Request>
    var requests: seq<Request>
    var looks: nat
    ghost var doneAt: map<string, nat>   // how many requests had been made when a unit was marked

    constructor (fetch: nat -> Fetch, stop: nat -> bool)
      ensures this.fetch == fetch && this.stop == stop
      ensures units == map[] && landed == {} && requests == [] && Resumable()
    {
      this.fetch, this.stop := fetch, stop;
      units, file, landed, requests, looks, doneAt := map[], map[], {}, [], 0, map[];
    }

    ghost function Snap(): Snapshot
      reads this
    {
      Snapshot(units, landed, requests)
    }

    /** The file holds every marked unit, and no unit was requested after it was marked. */
    ghost predicate Resumable()
      reads this
    {
      && file == units
      && doneAt.Keys == units.Keys
      && forall k, i :: k in doneAt && doneAt[k] <= i < |requests| ==>
           UnitKey(requests[i].operator, requests[i].window) != k
    }

    method StopRequested() returns (b: bool)
      modifies this`looks
      ensures b == LookAt(stop, old(looks)) && looks == old(looks) + 1
      ensures b ==> !NeverStops(stop)
    {
      b := LookAt(stop, looks);
      looks := looks + 1;
    }

    /** One request, and its rows landed when it brought any answer. */
    method Ask(request: Request) returns (got: Fetch)
      requires Resumable() && UnitKey(request.operator, request.window) !in units
      modifies this`landed, this`requests
      ensures Resumable() && got == FetchOf(fetch, |old(requests)|)
      ensures requests == old(requests) + [request]
      ensures landed == old(landed) + (if got.Failed? then {} else {request})
    {
      got := FetchOf(fetch, |requests|);
      requests := requests + [request];
      if got.Rows? {
        landed := landed + {request};
      }
    }

    /** `mark_done`: remember the unit and save the file. */
    method MarkDone(key: string, rows: nat, requestCount: nat)
      requires Resumable()
      requires key !in units
      modifies this`units, this`file, this`doneAt
      ensures Resumable()
      ensures units == old(units)[key := UnitRecord(rows, requestCount)]
    {
      units := units[key := UnitRecord(rows, requestCount)];
      file := units;
      doneAt := doneAt[key := |requests|];
    }

    /** `rows_done` */
    method SumRows() returns (rows: nat)
      ensures rows == RowsDone(units)
    {
      rows := 0;
      var left := units;
      while left != map[]
        invariant rows + RowsDone(left) == RowsDone(units)
        decreases |left|
      {
        var k :| k in left;
        RowsDoneRemove(left, k);
        rows := rows + left[k].rows;
        left := left - {k};
      }
    }

    /** A new process loads the file; the landed rows are in the database. */
    method Restart()
      requires Resumable()
      modifies this`units
      ensures Resumable() && units == old(units)
    {
      units := file;
    }

    /** `--reset` */
    method Reset()
      requires Resumable()
      modifies this`units, this`file, this`doneAt
      ensures Resumable() && units == map[]
    {
      units, file, doneAt := map[], map[], map[];
    }
  }

  function LookAt(stop: nat -> bool, n: nat): bool { stop(n) }

  /** The default stop_requested, which is always False. */
  ghost predicate NeverStops(stop: nat -> bool) {
    forall n: nat :: !LookAt(stop, n)
  }

  datatype UnitOutcome = UnitDone(rows: nat, requestCount: nat) | UnitStopped(rows: nat, requestCount: nat) | UnitFailed

  /** The first n batches of a unit were requested, in order. */
  ghost predicate Asked(was: seq<Request>, now: seq<Request>, p: PlanEntry, w: Window, batches: seq<seq<int>>,
                        n: nat)
  {
    && n <= |batches| && |now| == |was| + n && now[..|was|] == was
    && (forall m, i :: 0 <= m < n && i == |was| + m ==> now[i] == Request(p.operator, w, batches[m]))
    && (forall i :: |was| <= i < |now| ==> now[i].operator == p.operator && now[i].window == w)
  }

  lemma WholeUnit(p: PlanEntry, w: Window, landed: set<Request>)
    requires forall k :: 0 <= k < |Chunk(p.ids, BATCH_SIZE)| ==>
      Request(p.operator, w, Chunk(p.ids, BATCH_SIZE)[k]) in landed
    ensures UnitLanded(p, w, landed)
  {
  }

  lemma OneMoreFetched(fetch: nat -> Fetch, from: nat, to: nat)
    requires from <= to
    ensures Fetched(fetch, from, to + 1) ==
      Fetched(fetch, from, to) + (match FetchOf(fetch, to) case Rows(n) => n case Failed => 0)
    ensures SomeFailed(fetch, from, to + 1) <==> SomeFailed(fetch, from, to) || FetchOf(fetch, to).Failed?
  {
  }

  lemma AskedStep(was: seq<Request>, now: seq<Request>, p: PlanEntry, w: Window, batches: seq<seq<int>>, n: nat)
    requires n < |batches| && Asked(was, now, p, w, batches, n)
    ensures Asked(was, now + [Request(p.operator, w, batches[n])], p, w, batches, n + 1)
  {
  }

  /** The batches of one unit, in order, until one fails or a stop is seen. */
  method RunUnit(job: BackfillJob, p: PlanEntry, w: Window) returns (outcome: UnitOutcome)
    requires job.Resumable() && UnitKey(p.operator, w) !in job.units
    modifies job`landed, job`requests, job`looks
    ensures job.Resumable()
    ensures old(job.landed) <= job.landed
    ensures |job.requests| >= |old(job.requests)|
    ensures job.requests[..|old(job.requests)|] == old(job.requests)
    ensures |job.requests| - |old(job.requests)| <= |Chunk(p.ids, BATCH_SIZE)|
    ensures forall n, i :: 0 <= n < |Chunk(p.ids, BATCH_SIZE)| && i == |old(job.requests)| + n < |job.requests| ==>
      job.requests[i] == Request(p.operator, w, Chunk(p.ids, BATCH_SIZE)[n])
    ensures forall i :: |old(job.requests)| <= i < |job.requests| ==>
      job.requests[i].operator == p.operator && job.requests[i].window == w
    ensures outcome.UnitStopped? ==> !NeverStops(job.stop)
    ensures !outcome.UnitFailed? ==>
      outcome.requestCount == |job.requests| - |old(job.requests)|
    ensures outcome.UnitDone? ==>
      UnitLanded(p, w, job.landed) && outcome.requestCount == |Chunk(p.ids, BATCH_SIZE)|
    ensures outcome.UnitFailed? <==> SomeFailed(job.fetch, |old(job.requests)|, |job.requests|)
    ensures outcome.UnitDone? ==> outcome.rows == Fetched(job.fetch, |old(job.requests)|, |job.requests|)
  {
    var batches := ChunkList(p.ids, BATCH_SIZE);
    var rows: nat := 0;
    for n := 0 to |batches|
      invariant job.Resumable()
      invariant old(job.landed) <= job.landed
      invariant Asked(old(job.requests), job.requests, p, w, batches, n)
      invariant forall k :: 0 <= k < n ==> Request(p.operator, w, batches[k]) in job.landed
      invariant !SomeFailed(job.fetch, |old(job.requests)|, |job.requests|)
      invariant rows == Fetched(job.fetch, |old(job.requests)|, |job.requests|)
    {
      var request := Request(p.operator, w, batches[n]);
      OneMoreFetched(job.fetch, |old(job.requests)|, |job.requests|);
      AskedStep(old(job.requests), job.requests, p, w, batches, n);
      var got := job.Ask(request);
      if got.Failed? {
        return UnitFailed;
      }
      rows := rows + got.count;
      var stopping := job.StopRequested();
      if stopping {
        return UnitStopped(0, n + 1);
      }
    }
    WholeUnit(p, w, job.landed);
    outcome := UnitDone(rows, |batches|);
  }

  /** Units before position (i, j) of the grid, in work order. */
  ghost predicate DoneBefore(plan: seq<PlanEntry>, windows: seq<Window>, i: int, j: int,
                             units: map<string, UnitRecord>) {
    forall a, b :: 0 <= a < |plan| && 0 <= b < |windows| && (a < i || (a == i && b < j)) ==>
      UnitKey(plan[a].operator, windows[b]) in units
  }

  datatype Snapshot = Snapshot(units: map<string, UnitRecord>, landed: set<Request>,
                               requests: seq<Request>)

  /** What a run does to the job, however far it gets: nothing landed or checkpointed is lost, and
      no unit that was checkpointed before it is requested. */
  ghost predicate OnlyNewWork(a: Snapshot, b: Snapshot) {
    && a.landed <= b.landed
    && |a.requests| <= |b.requests| && b.requests[..|a.requests|] == a.requests
    && (forall k :: k in a.units ==> k in b.units && b.units[k] == a.units[k])
    && (forall i :: |a.requests| <= i < |b.requests| ==>
          UnitKey(b.requests[i].operator, b.requests[i].window) !in a.units)
  }

  lemma OnlyNewWorkComposes(a: Snapshot, b: Snapshot, c: Snapshot)
    requires OnlyNewWork(a, b) && OnlyNewWork(b, c)
    ensures OnlyNewWork(a, c)
  {
    assert c.requests[..|a.requests|] == b.requests[..|a.requests|];
    forall i | |a.requests| <= i < |c.requests|
      ensures UnitKey(c.requests[i].operator, c.requests[i].window) !in a.units
    {
      if i < |b.requests| { assert c.requests[i] == b.requests[i]; }
    }
  }

  lemma MarkKeepsCovered(plan: seq<PlanEntry>, windows: seq<Window>, units: map<string, UnitRecord>,
                         landed: set<Request>, p: PlanEntry, w: Window, u: UnitRecord)
    requires WellFormed(plan, windows) && p in plan && w in windows
    requires Covered(plan, windows, units, landed) && UnitLanded(p, w, landed)
    ensures Covered(plan, windows, units[UnitKey(p.operator, w) := u], landed)
  {
    forall q, v | q in plan && v in windows
      && UnitKey(q.operator, v) in units[UnitKey(p.operator, w) := u]
      ensures UnitLanded(q, v, landed)
    {
      if UnitKey(q.operator, v) !in units {
        UnitKeyInjective(q.operator, v, p.operator, w);
      }
    }
  }

  /** One cell of the grid that is not checkpointed yet: look at the stop flag, run the unit, and
      checkpoint it only when all of it landed. */
  method RunCell(job: BackfillJob, plan: seq<PlanEntry>, windows: seq<Window>, p: PlanEntry, w: Window)
    returns (outcome: UnitOutcome)
    requires WellFormed(plan, windows) && p in plan && w in windows
    requires job.Resumable() && Covered(plan, windows, job.units, job.landed)
    requires UnitKey(p.operator, w) !in job.units
    modifies job
    ensures job.Resumable() && Covered(plan, windows, job.units, job.landed)
    ensures OnlyNewWork(old(job.Snap()), job.Snap())
    ensures outcome.UnitStopped? ==> !NeverStops(job.stop)
    ensures !outcome.UnitFailed? ==> outcome.requestCount == |job.requests| - |old(job.requests)|
    ensures if outcome.UnitDone? then
        UnitKey(p.operator, w) in job.units && RowsDone(job.units) == RowsDone(old(job.units)) + outcome.rows
      else job.units == old(job.units)
    ensures outcome.UnitFailed? <==> SomeFailed(job.fetch, |old(job.requests)|, |job.requests|)
    ensures outcome.UnitDone? ==> outcome.rows == Fetched(job.fetch, |old(job.requests)|, |job.requests|)
  {
    var stopping := job.StopRequested();
    if stopping {
      return UnitStopped(0, 0);
    }
    outcome := RunUnit(job, p, w);
    if outcome.UnitDone? {
      var key, u := UnitKey(p.operator, w), UnitRecord(outcome.rows, outcome.requestCount);
      MarkKeepsCovered(plan, windows, job.units, job.landed, p, w, u);
      RowsDoneAdd(job.units, key, u);
      job.MarkDone(key, outcome.rows, outcome.requestCount);
    }
  }

  /** What two stretches of work add up to. */
  lemma Onwards(fetch: nat -> Fetch, a: Snapshot, b: Snapshot, c: Snapshot)
    requires OnlyNewWork(a, b) && OnlyNewWork(b, c)
    ensures OnlyNewWork(a, c)
    ensures var (i, j, k) := (|a.requests|, |b.requests|, |c.requests|);
      && Fetched(fetch, i, k) == Fetched(fetch, i, j) + Fetched(fetch, j, k)
      && (SomeFailed(fetch, i, k) <==> SomeFailed(fetch, i, j) || SomeFailed(fetch, j, k))
  {
    OnlyNewWorkComposes(a, b, c);
    FetchedJoins(fetch, |a.requests|, |b.requests|, |c.requests|);
  }

  lemma DoneStep(plan: seq<PlanEntry>, windows: seq<Window>, i: nat, j: nat,
                 was: map<string, UnitRecord>, units: map<string, UnitRecord>)
    requires i < |plan| && j < |windows| && DoneBefore(plan, windows, i, j, was)
    requires UnitKey(plan[i].operator, windows[j]) in units && forall k :: k in was ==> k in units
    ensures DoneBefore(plan, windows, i, j + 1, units)
  {
  }

  lemma DoneRow(plan: seq<PlanEntry>, windows: seq<Window>, i: nat, units: map<string, UnitRecord>)
    requires i < |plan| && DoneBefore(plan, windows, i, |windows|, units)
    ensures DoneBefore(plan, windows, i + 1, 0, units)
  {
  }

  /** All the windows of one operator, in order. */
  method RunOperator(job: BackfillJob, plan: seq<PlanEntry>, windows: seq<Window>, i: nat)
    returns (outcome: UnitOutcome)
    requires WellFormed(plan, windows) && i < |plan|
    requires job.Resumable() && Covered(plan, windows, job.units, job.landed)
    requires DoneBefore(plan, windows, i, 0, job.units)
    modifies job
    ensures job.Resumable() && Covered(plan, windows, job.units, job.landed)
    ensures OnlyNewWork(old(job.Snap()), job.Snap())
    ensures outcome.UnitStopped? ==> !NeverStops(job.stop)
    ensures !outcome.UnitFailed? ==>
      outcome.requestCount == |job.requests| - |old(job.requests)|
    ensures outcome.UnitDone? ==>
      DoneBefore(plan, windows, i + 1, 0, job.units)
    ensures !outcome.UnitFailed? ==>
      RowsDone(job.units) == RowsDone(old(job.units)) + outcome.rows
    ensures outcome.UnitFailed? <==> SomeFailed(job.fetch, |old(job.requests)|, |job.requests|)
    ensures outcome.UnitDone? ==> outcome.rows == Fetched(job.fetch, |old(job.requests)|, |job.requests|)
  {
    ghost var start := job.Snap();
    var rows: nat, count: nat := 0, 0;
    for j := 0 to |windows|
      invariant job.Resumable() && Covered(plan, windows, job.units, job.landed)
      invariant OnlyNewWork(start, job.Snap())
      invariant DoneBefore(plan, windows, i, j, job.units)
      invariant count == |job.requests| - |start.requests|
      invariant RowsDone(job.units) == RowsDone(start.units) + rows
      invariant !SomeFailed(job.fetch, |start.requests|, |job.requests|)
      invariant rows == Fetched(job.fetch, |start.requests|, |job.requests|)
    {
      if UnitKey(plan[i].operator, windows[j]) !in job.units {
        ghost var was := job.Snap();
        var cell := RunCell(job, plan, windows, plan[i], windows[j]);
        Onwards(job.fetch, start, was, job.Snap());
        if cell.UnitFailed? {
          return UnitFailed;
        }
        count := count + cell.requestCount;
        if cell.UnitStopped? {
          return UnitStopped(rows, count);
        }
        DoneStep(plan, windows, i, j, was.units, job.units);
        rows := rows + cell.rows;
      }
    }
    DoneRow(plan, windows, i, job.units);
    outcome := UnitDone(rows, count);
  }

  /** `run_backfill`: walk the grid, skipping checkpointed units. */
  method RunBackfill(job: BackfillJob, plan: seq<PlanEntry>, windows: seq<Window>)
    returns (r: Result<Summary, Abort>)
    requires WellFormed(plan, windows)
    requires job.Resumable() && Covered(plan, windows, job.units, job.landed)
    modifies job
    ensures job.Resumable() && Covered(plan, windows, job.units, job.landed)
    ensures OnlyNewWork(old(job.Snap()), job.Snap())
    ensures r.Success? ==>
      && r.value.requestsIssued == |job.requests| - |old(job.requests)|
      && r.value.cumulativeRows == RowsDone(job.units)
      && (r.value.stopped ==> !NeverStops(job.stop))
    ensures r.Success? && !r.value.stopped ==>
      forall p, w :: p in plan && w in windows ==>
        UnitKey(p.operator, w) in job.units && UnitLanded(p, w, job.landed)
    ensures r.Failure? <==> SomeFailed(job.fetch, |old(job.requests)|, |job.requests|)
    ensures r.Success? && !r.value.stopped ==>
      RowsDone(job.units) == RowsDone(old(job.units)) + Fetched(job.fetch, |old(job.requests)|, |job.requests|)
  {
    ghost var start := job.Snap();
    var issued: nat := 0;
    var rows := job.SumRows();
    for i := 0 to |plan|
      invariant job.Resumable() && Covered(plan, windows, job.units, job.landed)
      invariant OnlyNewWork(start, job.Snap())
      invariant DoneBefore(plan, windows, i, 0, job.units)
      invariant issued == |job.requests| - |start.requests| && rows == RowsDone(job.units)
      invariant !SomeFailed(job.fetch, |start.requests|, |job.requests|)
      invariant rows == RowsDone(start.units) + Fetched(job.fetch, |start.requests|, |job.requests|)
    {
      ghost var was := job.Snap();
      var outcome := RunOperator(job, plan, windows, i);
      Onwards(job.fetch, start, was, job.Snap());
      if outcome.UnitFailed? {
        return Failure(FetchFailed);
      }
      issued := issued + outcome.requestCount;
      rows := rows + outcome.rows;
      if outcome.UnitStopped? {
        return Success(Summary(true, issued, rows));
      }
    }
    r := Success(Summary(false, issued, rows));
  }

  /** Any sequence of stopped, failed and restarted runs of one plan, to the first complete one or
      as many as asked for: however the earlier ones ended, a complete run leaves every batch of
      every unit landed, and no run requests a unit that an earlier run had checkpointed. */
  method RunUntilComplete(job: BackfillJob, plan: seq<PlanEntry>, windows: seq<Window>, runs: nat)
    returns (complete: bool)
    requires WellFormed(plan, windows)
    requires job.Resumable() && Covered(plan, windows, job.units, job.landed)
    modifies job
    ensures job.Resumable() && Covered(plan, windows, job.units, job.landed)
    ensures OnlyNewWork(old(job.Snap()), job.Snap())
    ensures complete ==>
      forall p, w :: p in plan && w in windows ==>
        UnitKey(p.operator, w) in job.units && UnitLanded(p, w, job.landed)
  {
    ghost var start := job.Snap();
    for n := 0 to runs
      invariant job.Resumable() && Covered(plan, windows, job.units, job.landed)
      invariant OnlyNewWork(start, job.Snap())
    {
      ghost var was := job.Snap();
      job.Restart();
      var r := RunBackfill(job, plan, windows);
      OnlyNewWorkComposes(start, was, job.Snap());
      if r.Success? && !r.value.stopped {
        return true;
      }
    }
    complete := false;
  }
}
