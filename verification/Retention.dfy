/** Snapshot retention: scripts/prune_snapshots.py.

    `Drop` and `Keep` state the policy on the set of runs present in one table; the method
    `RunsToDrop` is the list algorithm of the script, proved to return exactly `Drop` in input
    order. The lemmas say that pruning every night keeps the same runs as pruning once. */
module Retention {
  import opened Wrappers

  /** `Other` is every ledger status that is not final, a NULL status and a missing ledger row. */
  datatype Status = Ok | Error | Other

  /** One ingest run's rows in one table; `month` is the UTC year and month it started in. */
  datatype Run = Run(id: int, status: Status, month: Option<string>, rows: nat)

  datatype PolicyError = KeepLatestTooSmall

  /** The rows of a table are grouped by run id, so an id names one run. */
  ghost predicate UniqueIds(runs: set<Run>) {
    forall r, s :: r in runs && s in runs && r.id == s.id ==> r == s
  }

  predicate Finished(r: Run) { r.status == Ok || r.status == Error }

  ghost function OkRuns(runs: set<Run>): set<Run> {
    set r | r in runs && r.status == Ok
  }

  ghost function OkAbove(runs: set<Run>, id: int): set<Run> {
    set r | r in runs && r.status == Ok && id < r.id
  }

  ghost predicate AmongNewest(runs: set<Run>, keepLatest: nat, r: Run) {
    r.status == Ok && |OkAbove(runs, r.id)| < keepLatest
  }

  ghost predicate FirstOfMonth(runs: set<Run>, r: Run) {
    && r.status == Ok
    && r.month.Some?
    && forall s :: s in runs && s.status == Ok && s.month == r.month ==> r.id <= s.id
  }

  /** The policy of one table, read off its documentation: a run goes when it finished before
      some OK run, is not among the newest OK runs and is not its month's first OK run. */
  ghost predicate Dropped(runs: set<Run>, keepLatest: nat, r: Run) {
    && Finished(r)
    && OkAbove(runs, r.id) != {}
    && !AmongNewest(runs, keepLatest, r)
    && !FirstOfMonth(runs, r)
  }

  ghost function Drop(runs: set<Run>, keepLatest: nat): set<Run> {
    set r | r in runs && Dropped(runs, keepLatest, r)
  }

  ghost function Keep(runs: set<Run>, keepLatest: nat): set<Run> {
    runs - Drop(runs, keepLatest)
  }

  ghost function ToSet(runs: seq<Run>): set<Run> {
    set r | r in runs
  }

  // ----- the list algorithm -------------------------------------------------------------

  ghost predicate StrictlyAscending(runs: seq<Run>) {
    forall i, j :: 0 <= i < j < |runs| ==> runs[i].id < runs[j].id
  }

  ghost predicate DistinctIds(runs: seq<Run>) {
    forall i, j :: 0 <= i < j < |runs| ==> runs[i].id != runs[j].id
  }

  /** The dropped runs of a list, in list order. */
  ghost function DropList(all: set<Run>, keepLatest: nat, runs: seq<Run>): seq<Run> {
    if runs == [] then []
    else
      var init, last := runs[..|runs| - 1], runs[|runs| - 1];
      DropList(all, keepLatest, init) + (if Dropped(all, keepLatest, last) then [last] else [])
  }

  lemma {:induction false} DropListIsDrop(all: set<Run>, keepLatest: nat, runs: seq<Run>)
    ensures ToSet(DropList(all, keepLatest, runs))
         == set r | r in runs && Dropped(all, keepLatest, r)
  {
    if runs != [] {
      var init, last := runs[..|runs| - 1], runs[|runs| - 1];
      DropListIsDrop(all, keepLatest, init);
      assert runs == init + [last];
      assert DropList(all, keepLatest, runs)
          == DropList(all, keepLatest, init) + (if Dropped(all, keepLatest, last) then [last] else []);
      forall r ensures r in ToSet(DropList(all, keepLatest, runs))
                  <==> r in runs && Dropped(all, keepLatest, r)
      {
        assert r in ToSet(DropList(all, keepLatest, init)) <==> r in init && Dropped(all, keepLatest, r);
      }
    }
  }

  /** Python's `sorted` on the OK runs: ascending by run id. */
  method SortedOk(runs: seq<Run>) returns (ok: seq<Run>)
    requires DistinctIds(runs)
    ensures StrictlyAscending(ok)
    ensures ToSet(ok) == OkRuns(ToSet(runs))
  {
    ok := [];
    for n := 0 to |runs|
      invariant StrictlyAscending(ok)
      invariant forall r :: r in ok <==> r in runs[..n] && r.status == Ok
    {
      if runs[n].status == Ok {
        var at := |ok|;
        while at > 0 && runs[n].id < ok[at - 1].id
          invariant 0 <= at <= |ok|
          invariant forall j :: at <= j < |ok| ==> runs[n].id < ok[j].id
        {
          at := at - 1;
        }
        forall j | 0 <= j < at ensures ok[j].id < runs[n].id {
          assert ok[j] in ok;
          assert ok[at - 1] in ok;
        }
        ok := ok[..at] + [runs[n]] + ok[at..];
      }
    }
    assert runs[..|runs|] == runs;
  }

  lemma {:induction false} DistinctCardinality(s: seq<Run>)
    requires StrictlyAscending(s)
    ensures |ToSet(s)| == |s|
  {
    if s != [] {
      var init, last := s[..|s| - 1], s[|s| - 1];
      DistinctCardinality(init);
      assert ToSet(s) == ToSet(init) + {last};
      assert last !in init;
    }
  }

  /** In the ascending OK list, the number of OK runs above an entry is its distance from the end. */
  lemma {:induction false} RankFromEnd(all: set<Run>, ok: seq<Run>, i: nat)
    requires StrictlyAscending(ok) && ToSet(ok) == OkRuns(all)
    requires i < |ok|
    ensures |OkAbove(all, ok[i].id)| == |ok| - 1 - i
  {
    var above := ok[i + 1..];
    forall r ensures r in OkAbove(all, ok[i].id) <==> r in ToSet(above) {
      if r in OkAbove(all, ok[i].id) {
        assert r in ToSet(ok);
        var j :| 0 <= j < |ok| && ok[j] == r;
        assert j > i;
        assert r == above[j - i - 1];
      }
      if r in ToSet(above) {
        assert r in ToSet(ok);
      }
    }
    assert OkAbove(all, ok[i].id) == ToSet(above);
    DistinctCardinality(above);
  }

  lemma OkAboveIffBelowLast(all: set<Run>, ok: seq<Run>, r: Run)
    requires StrictlyAscending(ok) && ToSet(ok) == OkRuns(all)
    requires ok != []
    ensures OkAbove(all, r.id) != {} <==> r.id < ok[|ok| - 1].id
  {
    if OkAbove(all, r.id) != {} {
      var s :| s in OkAbove(all, r.id);
      assert s in ToSet(ok);
    }
    if r.id < ok[|ok| - 1].id {
      assert ok[|ok| - 1] in ToSet(ok);
      assert ok[|ok| - 1] in OkAbove(all, r.id);
    }
  }

  /** `runs_to_drop`: sort the OK runs, keep the last `keepLatest` and each month's first, and
      list the other finished runs below the newest OK run. */
  method RunsToDrop(runs: seq<Run>, keepLatest: int) returns (r: Result<seq<Run>, PolicyError>)
    requires DistinctIds(runs)
    ensures r.Failure? <==> keepLatest < 2
    ensures r.Success? ==> r.value == DropList(ToSet(runs), keepLatest, runs)
  {
    if keepLatest < 2 {
      return Failure(KeepLatestTooSmall);
    }
    ghost var all := ToSet(runs);
    var ok := SortedOk(runs);
    if ok == [] {
      NothingDroppedWithoutOk(all, keepLatest, runs);
      return Success([]);
    }
    // ok[-keep_latest:]
    var from := if |ok| <= keepLatest then 0 else |ok| - keepLatest;
    var keep := set j | from <= j < |ok| :: ok[j].id;
    var firstOfMonth: map<string, int> := map[];
    for j := 0 to |ok|
      invariant forall m :: m in firstOfMonth ==>
        exists k :: 0 <= k < j && ok[k].month == Some(m) && ok[k].id == firstOfMonth[m]
      invariant forall k :: 0 <= k < j && ok[k].month.Some? ==>
        ok[k].month.value in firstOfMonth && firstOfMonth[ok[k].month.value] <= ok[k].id
    {
      if ok[j].month.Some? && ok[j].month.value !in firstOfMonth {
        firstOfMonth := firstOfMonth[ok[j].month.value := ok[j].id];
      }
    }
    var newest := ok[|ok| - 1].id;
    var out: seq<Run> := [];
    for n := 0 to |runs|
      invariant out == DropList(all, keepLatest, runs[..n])
    {
      var run := runs[n];
      var firsts := firstOfMonth.Values;
      KeepMeansProtected(runs, ok, keepLatest, from, firstOfMonth, run);
      OkAboveIffBelowLast(all, ok, run);
      assert runs[..n + 1][..n] == runs[..n];
      if (run.status == Ok || run.status == Error) && run.id < newest
         && run.id !in keep && run.id !in firsts {
        out := out + [run];
      }
    }
    assert runs[..|runs|] == runs;
    r := Success(out);
  }

  lemma {:induction false} NothingDroppedWithoutOk(all: set<Run>, keepLatest: nat, runs: seq<Run>)
    requires OkRuns(all) == {}
    ensures DropList(all, keepLatest, runs) == []
  {
    if runs != [] {
      NothingDroppedWithoutOk(all, keepLatest, runs[..|runs| - 1]);
      var last := runs[|runs| - 1];
      assert OkAbove(all, last.id) <= OkRuns(all);
    }
  }

  lemma DistinctMeansUnique(runs: seq<Run>)
    requires DistinctIds(runs)
    ensures UniqueIds(ToSet(runs))
  {
    forall r, s | r in ToSet(runs) && s in ToSet(runs) && r.id == s.id ensures r == s {
      var i :| 0 <= i < |runs| && runs[i] == r;
      var j :| 0 <= j < |runs| && runs[j] == s;
    }
  }

  /** What the sorted list holds: the OK runs, each at some place. */
  lemma OkListHolds(runs: seq<Run>, ok: seq<Run>)
    requires ToSet(ok) == OkRuns(ToSet(runs))
    ensures forall k :: 0 <= k < |ok| ==> ok[k] in ToSet(runs) && ok[k].status == Ok
    ensures forall s :: s in ToSet(runs) && s.status == Ok ==> exists k :: 0 <= k < |ok| && ok[k] == s
  {
    forall k | 0 <= k < |ok| ensures ok[k] in ToSet(runs) && ok[k].status == Ok {
      assert ok[k] in ToSet(ok);
    }
    forall s | s in ToSet(runs) && s.status == Ok ensures exists k :: 0 <= k < |ok| && ok[k] == s {
      assert s in ToSet(ok);
    }
  }

  lemma KeepMeansNewest(runs: seq<Run>, ok: seq<Run>, keepLatest: nat, from: nat, run: Run)
    requires DistinctIds(runs) && run in runs
    requires StrictlyAscending(ok) && ToSet(ok) == OkRuns(ToSet(runs))
    requires from == if |ok| <= keepLatest then 0 else |ok| - keepLatest
    ensures (exists j :: from <= j < |ok| && ok[j].id == run.id)
        <==> AmongNewest(ToSet(runs), keepLatest, run)
  {
    DistinctMeansUnique(runs);
    OkListHolds(runs, ok);
    if run.status == Ok {
      var k :| 0 <= k < |ok| && ok[k] == run;
      RankFromEnd(ToSet(runs), ok, k);
    }
  }

  lemma KeepMeansFirst(runs: seq<Run>, ok: seq<Run>, firstOfMonth: map<string, int>, run: Run)
    requires DistinctIds(runs) && run in runs && ToSet(ok) == OkRuns(ToSet(runs))
    requires forall m :: m in firstOfMonth ==>
      exists k :: 0 <= k < |ok| && ok[k].month == Some(m) && ok[k].id == firstOfMonth[m]
    requires forall k :: 0 <= k < |ok| && ok[k].month.Some? ==>
      ok[k].month.value in firstOfMonth && firstOfMonth[ok[k].month.value] <= ok[k].id
    ensures run.id in firstOfMonth.Values <==> FirstOfMonth(ToSet(runs), run)
  {
    var all := ToSet(runs);
    DistinctMeansUnique(runs);
    OkListHolds(runs, ok);
    if run.id in firstOfMonth.Values {
      var m :| m in firstOfMonth && firstOfMonth[m] == run.id;
      var k :| 0 <= k < |ok| && ok[k].month == Some(m) && ok[k].id == run.id;
      assert ok[k] == run;
      forall s | s in all && s.status == Ok && s.month == run.month ensures run.id <= s.id {
        var j :| 0 <= j < |ok| && ok[j] == s;
      }
    }
    if FirstOfMonth(all, run) {
      var m := run.month.value;
      var j :| 0 <= j < |ok| && ok[j] == run;
      var k :| 0 <= k < |ok| && ok[k].month == Some(m) && ok[k].id == firstOfMonth[m];
      assert firstOfMonth[m] == run.id;
    }
  }

  lemma KeepMeansProtected(runs: seq<Run>, ok: seq<Run>, keepLatest: nat, from: nat,
                           firstOfMonth: map<string, int>, run: Run)
    requires DistinctIds(runs) && run in runs
    requires StrictlyAscending(ok) && ToSet(ok) == OkRuns(ToSet(runs)) && ok != []
    requires from == if |ok| <= keepLatest then 0 else |ok| - keepLatest
    requires forall m :: m in firstOfMonth ==>
      exists k :: 0 <= k < |ok| && ok[k].month == Some(m) && ok[k].id == firstOfMonth[m]
    requires forall k :: 0 <= k < |ok| && ok[k].month.Some? ==>
      ok[k].month.value in firstOfMonth && firstOfMonth[ok[k].month.value] <= ok[k].id
    ensures (exists j :: from <= j < |ok| && ok[j].id == run.id)
        <==> AmongNewest(ToSet(runs), keepLatest, run)
    ensures run.id in firstOfMonth.Values <==> FirstOfMonth(ToSet(runs), run)
  {
    KeepMeansNewest(runs, ok, keepLatest, from, run);
    KeepMeansFirst(runs, ok, firstOfMonth, run);
  }

  // ----- path independence --------------------------------------------------------------

  /** What a table goes through between two prunes: a finished run's rows and ledger entry are
      final, an unfinished one may finish, and new runs of any id may land. */
  ghost predicate Evolves(before: set<Run>, after: set<Run>) {
    && UniqueIds(after)
    && (forall r :: r in before && Finished(r) ==> r in after)
    && (forall r :: r in before ==> exists s :: s in after && s.id == r.id)
  }

  lemma OkAboveMonotone(small: set<Run>, big: set<Run>, id: int)
    requires OkRuns(small) <= OkRuns(big)
    ensures OkAbove(small, id) <= OkAbove(big, id)
    ensures |OkAbove(small, id)| <= |OkAbove(big, id)|
  {
    forall r | r in OkAbove(small, id) ensures r in OkAbove(big, id) {
      assert r in OkRuns(small);
    }
    SubsetSize(OkAbove(small, id), OkAbove(big, id));
  }

  /** A dropped run stays dropped however the table evolves. */
  lemma DroppedStaysDropped(before: set<Run>, after: set<Run>, keepLatest: nat, r: Run)
    requires Evolves(before, after)
    requires r in before && Dropped(before, keepLatest, r)
    ensures r in after && Dropped(after, keepLatest, r)
  {
    forall s | s in OkRuns(before) ensures s in OkRuns(after) { assert Finished(s); }
    OkAboveMonotone(before, after, r.id);
    if r.status == Ok && r.month.Some? {
      var s :| s in before && s.status == Ok && s.month == r.month && s.id < r.id;
      assert Finished(s);
    }
  }

  lemma {:induction false} HighestRun(runs: set<Run>) returns (top: Run)
    requires runs != {}
    ensures top in runs
    ensures forall r :: r in runs ==> r.id <= top.id
  {
    top :| top in runs;
    var rest := runs - {top};
    if rest != {} {
      var other := HighestRun(rest);
      if other.id > top.id { top := other; }
    }
    forall r | r in runs ensures r.id <= top.id { assert r in rest || r !in rest; }
  }

  lemma {:induction false} LowestRun(runs: set<Run>) returns (low: Run)
    requires runs != {}
    ensures low in runs
    ensures forall r :: r in runs ==> low.id <= r.id
  {
    low :| low in runs;
    var rest := runs - {low};
    if rest != {} {
      var other := LowestRun(rest);
      if other.id < low.id { low := other; }
    }
    forall r | r in runs ensures low.id <= r.id { assert r in rest || r !in rest; }
  }

  /** Removing only runs outside the newest `keepLatest` does not change who is among them. */
  lemma RankUnchanged(all: set<Run>, gone: set<Run>, keepLatest: nat, r: Run)
    requires forall x :: x in gone && x.status == Ok ==> !AmongNewest(all, keepLatest, x)
    requires r.status == Ok
    ensures AmongNewest(all - gone, keepLatest, r) <==> AmongNewest(all, keepLatest, r)
  {
    var rest := all - gone;
    assert OkRuns(rest) <= OkRuns(all);
    OkAboveMonotone(rest, all, r.id);
    var missing := OkAbove(all, r.id) - OkAbove(rest, r.id);
    assert OkAbove(all, r.id) == OkAbove(rest, r.id) + missing;
    if missing != {} {
      // The highest OK run that was removed has all of its newer OK runs still present, and
      // there are at least keepLatest of them.
      var x := HighestRun(missing);
      assert x in gone && !AmongNewest(all, keepLatest, x);
      forall s | s in OkAbove(all, x.id) ensures s in OkAbove(rest, r.id) {
        assert s in OkAbove(all, r.id);
      }
      SubsetSize(OkAbove(all, x.id), OkAbove(rest, r.id));
    }
  }

  lemma FirstUnchanged(all: set<Run>, gone: set<Run>, r: Run)
    requires forall x :: x in gone ==> !FirstOfMonth(all, x)
    requires r in all - gone
    ensures FirstOfMonth(all - gone, r) <==> FirstOfMonth(all, r)
  {
    if FirstOfMonth(all - gone, r) {
      var same := set s | s in all && s.status == Ok && s.month == r.month;
      assert r in same;
      var first := LowestRun(same);
      assert FirstOfMonth(all, first);
      assert first in all - gone;
    }
  }

  /** The newest OK run is never dropped, so "finished before an OK run" reads the same. */
  lemma BelowNewestUnchanged(all: set<Run>, gone: set<Run>, id: int)
    requires forall x :: x in gone && x.status == Ok ==> OkAbove(all, x.id) != {}
    ensures OkAbove(all - gone, id) != {} <==> OkAbove(all, id) != {}
  {
    assert OkAbove(all - gone, id) <= OkAbove(all, id);
    if OkAbove(all, id) != {} {
      var newest := HighestRun(OkAbove(all, id));
      assert OkAbove(all, newest.id) <= OkAbove(all, id);
      assert OkAbove(all, newest.id) == {};
      assert newest in OkAbove(all - gone, id);
    }
  }

  /** Dropping runs that the policy drops anyway leaves its verdict on the others unchanged. */
  lemma VerdictUnchanged(all: set<Run>, gone: set<Run>, keepLatest: nat, r: Run)
    requires forall x :: x in gone ==> x in all && Dropped(all, keepLatest, x)
    requires r in all - gone
    ensures Dropped(all - gone, keepLatest, r) <==> Dropped(all, keepLatest, r)
  {
    BelowNewestUnchanged(all, gone, r.id);
    FirstUnchanged(all, gone, r);
    if r.status == Ok { RankUnchanged(all, gone, keepLatest, r); }
  }

  /** Pruning early is invisible to the next prune: after any evolution of the table, deleting
      what an earlier prune had dropped and pruning again keeps exactly what one prune keeps. */
  lemma PruneEarlyThenLate(before: set<Run>, after: set<Run>, keepLatest: nat)
    requires UniqueIds(before) && Evolves(before, after) && 2 <= keepLatest
    ensures Keep(after - Drop(before, keepLatest), keepLatest) == Keep(after, keepLatest)
  {
    var gone := Drop(before, keepLatest);
    forall x | x in gone ensures x in after && Dropped(after, keepLatest, x) {
      DroppedStaysDropped(before, after, keepLatest, x);
    }
    forall r | r in after - gone
      ensures Dropped(after - gone, keepLatest, r) <==> Dropped(after, keepLatest, r)
    {
      VerdictUnchanged(after, gone, keepLatest, r);
    }
  }

  /** The special case of new runs only: keep(keep(A) + B) = keep(A + B). */
  lemma KeepAbsorbs(a: set<Run>, b: set<Run>, keepLatest: nat)
    requires UniqueIds(a + b) && a !! b && 2 <= keepLatest
    ensures Keep(Keep(a, keepLatest) + b, keepLatest) == Keep(a + b, keepLatest)
  {
    assert UniqueIds(a);
    assert Evolves(a, a + b);
    PruneEarlyThenLate(a, a + b, keepLatest);
    assert Keep(a, keepLatest) + b == (a + b) - Drop(a, keepLatest);
  }

  /** The table after a history of nightly prunes: `nights[i]` is what would be present on night
      i had nothing ever been deleted. */
  ghost function PrunedNightly(nights: seq<set<Run>>, keepLatest: nat): set<Run>
    requires nights != []
  {
    if |nights| == 1 then Keep(nights[0], keepLatest)
    else
      var earlier := nights[..|nights| - 1];
      var deleted := nights[|nights| - 2] - PrunedNightly(earlier, keepLatest);
      Keep(nights[|nights| - 1] - deleted, keepLatest)
  }

  /** Retention is path independent: whatever the history, the nightly prunes leave what a
      single prune of the full last table would leave. */
  lemma {:induction false} NightlyEqualsOnce(nights: seq<set<Run>>, keepLatest: nat)
    requires nights != [] && 2 <= keepLatest
    requires UniqueIds(nights[0])
    requires forall i :: 0 <= i < |nights| - 1 ==> Evolves(nights[i], nights[i + 1])
    ensures PrunedNightly(nights, keepLatest) == Keep(nights[|nights| - 1], keepLatest)
  {
    if |nights| > 1 {
      var earlier := nights[..|nights| - 1];
      var last, prev := nights[|nights| - 1], nights[|nights| - 2];
      NightlyEqualsOnce(earlier, keepLatest);
      assert Evolves(prev, last);
      assert UniqueIds(prev) by {
        if |nights| > 2 { assert Evolves(nights[|nights| - 3], prev); }
      }
      assert prev - Keep(prev, keepLatest) == Drop(prev, keepLatest);
      PruneEarlyThenLate(prev, last, keepLatest);
    }
  }

  // ----- what the readers rely on -------------------------------------------------------

  /** No OK run with fewer than `keepLatest` newer OK runs is ever dropped: the newest, which
      claims reads, and the two newest, which churn compares. Unfinished runs stay too. */
  lemma NewestSurvive(runs: set<Run>, keepLatest: nat, r: Run)
    requires 2 <= keepLatest && r in runs
    ensures r.status == Ok && |OkAbove(runs, r.id)| <= 1 ==> r in Keep(runs, keepLatest)
    ensures !Finished(r) ==> r in Keep(runs, keepLatest)
    ensures r.status == Ok && OkAbove(runs, r.id) == {} ==>
      forall s :: s in OkRuns(Keep(runs, keepLatest)) ==> s.id <= r.id
  {
    if r.status == Ok && OkAbove(runs, r.id) == {} {
      forall s | s in OkRuns(Keep(runs, keepLatest)) ensures s.id <= r.id {
        assert s !in OkAbove(runs, r.id);
      }
    }
  }

  ghost function Newest(runs: set<Run>, keepLatest: nat): set<Run> {
    set r | r in runs && AmongNewest(runs, keepLatest, r)
  }

  ghost function Firsts(runs: set<Run>): set<Run> {
    set r | r in runs && FirstOfMonth(runs, r)
  }

  ghost function Months(runs: set<Run>): set<string> {
    set r | r in runs && r.status == Ok && r.month.Some? :: r.month.value
  }

  lemma NewestAtMost(runs: set<Run>, keepLatest: nat)
    requires UniqueIds(runs)
    ensures |Newest(runs, keepLatest)| <= keepLatest
  {
    var top := Newest(runs, keepLatest);
    if top != {} {
      var low := LowestRun(top);
      assert top - {low} <= OkAbove(runs, low.id);
      SubsetSize(top - {low}, OkAbove(runs, low.id));
    }
  }

  lemma {:induction false} OnePerMonth(firsts: set<Run>, months: set<string>)
    requires UniqueIds(firsts)
    requires forall r :: r in firsts ==> r.month.Some? && r.month.value in months
    requires forall r, s :: r in firsts && s in firsts && r.month == s.month ==> r == s
    ensures |firsts| <= |months|
  {
    if firsts != {} {
      var r :| r in firsts;
      OnePerMonth(firsts - {r}, months - {r.month.value});
    }
  }

  /** How many finished runs survive below or at the newest OK run: the window of the newest
      plus one sample for each month seen. */
  lemma KeptIsBounded(runs: set<Run>, keepLatest: nat, newest: Run)
    requires UniqueIds(runs) && 2 <= keepLatest
    requires newest in runs && newest.status == Ok && OkAbove(runs, newest.id) == {}
    ensures var kept := set r | r in Keep(runs, keepLatest) && Finished(r) && r.id <= newest.id;
            |kept| <= keepLatest + |Months(runs)|
  {
    var kept := set r | r in Keep(runs, keepLatest) && Finished(r) && r.id <= newest.id;
    forall r | r in kept ensures r in Newest(runs, keepLatest) + Firsts(runs) {
      if r.id < newest.id {
        assert newest in OkAbove(runs, r.id);
      } else {
        assert r == newest;
      }
    }
    SubsetSize(kept, Newest(runs, keepLatest) + Firsts(runs));
    NewestAtMost(runs, keepLatest);
    OnePerMonth(Firsts(runs), Months(runs));
    assert |Newest(runs, keepLatest) + Firsts(runs)|
        <= |Newest(runs, keepLatest)| + |Firsts(runs)|;
  }

  /** The policy with its conditions written out: what finished before some OK run goes, unless it is OK
      itself and fewer than keep_latest OK runs are newer, or no OK run of its month is older. */
  lemma DroppedIff(runs: set<Run>, keepLatest: nat, r: Run)
    ensures r in Drop(runs, keepLatest) <==>
      var newer := set s | s in runs && s.status == Ok && s.id > r.id;
      && r in runs && (r.status == Ok || r.status == Error)
      && newer != {}
      && (r.status == Ok ==> |newer| >= keepLatest)
      && (r.status == Ok && r.month.Some? ==>
        exists s :: s in runs && s.status == Ok && s.month == r.month && s.id < r.id)
  {
    assert OkAbove(runs, r.id) == set s | s in runs && s.status == Ok && s.id > r.id;
  }
}
