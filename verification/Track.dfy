/** Downsampling of a daily orbit series: `_bucket_track` in api/routers/satellites.py. Averages are
    taken over reals; the rounding of the printed values is not part of this model. */
module Track {
  import opened Wrappers

  const TRACK_CAP := 400

  datatype Daily = Daily(day: int, sma: Option<real>, perigee: Option<real>, apogee: Option<real>,
                         elsets: Option<nat>)

  datatype Point = Point(day: int, sma: Option<real>, perigee: Option<real>, apogee: Option<real>,
                         elsets: nat)

  // ----- the slices ---------------------------------------------------------------------

  /** Where slice i starts: i * n // 400. */
  function Cut(n: nat, i: nat): nat { i * n / TRACK_CAP }

  lemma CutBounds(n: nat, i: nat)
    requires i <= TRACK_CAP
    ensures 0 <= Cut(n, i) <= n
    ensures Cut(n, 0) == 0 && Cut(n, TRACK_CAP) == n
  {
    assert i * n <= TRACK_CAP * n;
    assert TRACK_CAP * n / TRACK_CAP == n;
    assert 0 * n == 0;
  }

  /** Each slice has the floor or the ceiling of n / 400 rows, so none is empty above the cap. */
  lemma SliceSize(n: nat, i: nat)
    requires i < TRACK_CAP
    ensures n / TRACK_CAP <= Cut(n, i + 1) - Cut(n, i) <= (n + TRACK_CAP - 1) / TRACK_CAP
    ensures n > TRACK_CAP ==> Cut(n, i) < Cut(n, i + 1)
  {
    assert (i + 1) * n == i * n + n;
  }

  // ----- averages -----------------------------------------------------------------------

  function Present(values: seq<Option<real>>): seq<real> {
    if values == [] then []
    else
      var last := values[|values| - 1];
      Present(values[..|values| - 1]) + (if last.Some? then [last.value] else [])
  }

  function Total(nums: seq<real>): real {
    if nums == [] then 0.0 else Total(nums[..|nums| - 1]) + nums[|nums| - 1]
  }

  /** `_avg`: None when nothing is present. */
  function Avg(values: seq<Option<real>>): Option<real> {
    var nums := Present(values);
    if nums == [] then None else Some(Total(nums) / (|nums| as real))
  }

  /** The mean of what is present lies between any bounds on it. */
  lemma AvgWithinBounds(values: seq<Option<real>>, lo: real, hi: real)
    requires forall v :: v in values && v.Some? ==> lo <= v.value <= hi
    ensures Avg(values).None? <==> forall v :: v in values ==> v.None?
    ensures Avg(values).Some? ==> lo <= Avg(values).value <= hi
  {
    PresentValues(values);
    var nums := Present(values);
    forall i | 0 <= i < |nums| ensures lo <= nums[i] <= hi { assert Some(nums[i]) in values; }
    TotalBounds(nums, lo, hi);
    if nums != [] {
      MeanBounds(Total(nums), |nums| as real, lo, hi);
      assert Some(nums[0]) in values;
    }
  }

  lemma MeanBounds(total: real, n: real, lo: real, hi: real)
    requires n > 0.0 && n * lo <= total <= n * hi
    ensures lo <= total / n <= hi
  {
  }

  lemma {:induction false} PresentValues(values: seq<Option<real>>)
    ensures forall i :: 0 <= i < |Present(values)| ==> Some(Present(values)[i]) in values
    ensures Present(values) == [] ==> forall v :: v in values ==> v.None?
  {
    if values != [] {
      var init, last := values[..|values| - 1], values[|values| - 1];
      PresentValues(init);
      assert values == init + [last];
      assert Present(values) == Present(init) + (if last.Some? then [last.value] else []);
      forall i | 0 <= i < |Present(values)| ensures Some(Present(values)[i]) in values {
        if i < |Present(init)| { assert Some(Present(init)[i]) in init; }
      }
    }
  }

  lemma {:induction false} TotalBounds(nums: seq<real>, lo: real, hi: real)
    requires forall i :: 0 <= i < |nums| ==> lo <= nums[i] <= hi
    ensures (|nums| as real) * lo <= Total(nums) <= (|nums| as real) * hi
  {
    if nums != [] {
      TotalBounds(nums[..|nums| - 1], lo, hi);
      assert (|nums| as real) == (|nums| - 1) as real + 1.0;
    }
  }

  // ----- points -------------------------------------------------------------------------

  function Elsets(rows: seq<Daily>): nat {
    if rows == [] then 0
    else
      var last := rows[|rows| - 1];
      Elsets(rows[..|rows| - 1]) + (if last.elsets.Some? then last.elsets.value else 0)
  }

  function PointElsets(points: seq<Point>): nat {
    if points == [] then 0 else PointElsets(points[..|points| - 1]) + points[|points| - 1].elsets
  }

  /** A row that is its own point. */
  function PointOf(r: Daily): Point {
    Point(r.day, r.sma, r.perigee, r.apogee, if r.elsets.Some? then r.elsets.value else 0)
  }

  function Column(rows: seq<Daily>, f: Daily -> Option<real>): seq<Option<real>> {
    seq(|rows|, i requires 0 <= i < |rows| => f(rows[i]))
  }

  /** A non-empty slice as one point: the middle day, the means, the sum of the counts. */
  function Bucket(chunk: seq<Daily>): Point
    requires chunk != []
  {
    Point(chunk[|chunk| / 2].day,
          Avg(Column(chunk, (r: Daily) => r.sma)),
          Avg(Column(chunk, (r: Daily) => r.perigee)),
          Avg(Column(chunk, (r: Daily) => r.apogee)),
          Elsets(chunk))
  }

  ghost predicate DaysAscend(rows: seq<Daily>) {
    forall i, j :: 0 <= i < j < |rows| ==> rows[i].day < rows[j].day
  }

  /** A point is slice i of a long series. */
  ghost predicate IsSlice(rows: seq<Daily>, i: nat, p: Point) {
    && i < TRACK_CAP
    && 0 <= Cut(|rows|, i) < Cut(|rows|, i + 1) <= |rows|
    && p == Bucket(rows[Cut(|rows|, i)..Cut(|rows|, i + 1)])
  }

  ghost predicate Tracks(rows: seq<Daily>, points: seq<Point>) {
    && |points| == (if |rows| <= TRACK_CAP then |rows| else TRACK_CAP)
    && (|rows| <= TRACK_CAP ==> forall i :: 0 <= i < |rows| ==> points[i] == PointOf(rows[i]))
    && (|rows| > TRACK_CAP ==> forall i :: 0 <= i < TRACK_CAP ==> IsSlice(rows, i, points[i]))
  }

  /** `_bucket_track`: at most 400 points; a short series passes through row by row, a long one
      becomes the 400 slices in order. */
  method BucketTrack(rows: seq<Daily>) returns (points: seq<Point>)
    ensures Tracks(rows, points)
    ensures |points| == if |rows| <= 400 then |rows| else 400
    ensures |rows| > 400 ==> forall i :: 0 <= i < 400 ==> IsSlice(rows, i, points[i])
  {
    var n := |rows|;
    points := [];
    if n <= TRACK_CAP {
      for i := 0 to n
        invariant |points| == i
        invariant forall k :: 0 <= k < i ==> points[k] == PointOf(rows[k])
      {
        points := points + [PointOf(rows[i])];
      }
      return;
    }
    for i := 0 to TRACK_CAP
      invariant |points| == i
      invariant forall k :: 0 <= k < i ==> IsSlice(rows, k, points[k])
    {
      CutBounds(n, i);
      CutBounds(n, i + 1);
      SliceSize(n, i);
      var chunk := rows[Cut(n, i)..Cut(n, i + 1)];
      points := points + [Bucket(chunk)];
    }
  }

  /** The slices partition the series: every row is in exactly one of them. */
  lemma {:induction false} EveryRowInOneSlice(n: nat, r: nat) returns (i: nat)
    requires r < n && n > TRACK_CAP
    ensures i < TRACK_CAP && Cut(n, i) <= r < Cut(n, i + 1)
    ensures forall j :: 0 <= j < TRACK_CAP && Cut(n, j) <= r < Cut(n, j + 1) ==> j == i
  {
    i := 0;
    CutBounds(n, 0);
    while Cut(n, i + 1) <= r
      invariant i < TRACK_CAP && Cut(n, i) <= r
      decreases TRACK_CAP - i
    {
      CutBounds(n, i + 1);
      i := i + 1;
      CutBounds(n, i);
    }
    forall j | 0 <= j < TRACK_CAP && Cut(n, j) <= r < Cut(n, j + 1) ensures j == i {
      if j < i { CutsAscend(n, j + 1, i); }
      if i < j { CutsAscend(n, i + 1, j); }
    }
  }

  lemma {:induction false} CutsAscend(n: nat, i: nat, j: nat)
    requires i <= j <= TRACK_CAP
    ensures Cut(n, i) <= Cut(n, j)
  {
    if i < j {
      CutsAscend(n, i, j - 1);
      SliceSize(n, j - 1);
    }
  }

  lemma {:induction false} ElsetsSplit(rows: seq<Daily>, a: nat, b: nat)
    requires a <= b <= |rows|
    ensures Elsets(rows[..b]) == Elsets(rows[..a]) + Elsets(rows[a..b])
  {
    if a < b {
      ElsetsSplit(rows, a, b - 1);
      assert rows[..b][..b - 1] == rows[..b - 1];
      assert rows[a..b][..b - 1 - a] == rows[a..b - 1];
    } else {
      assert rows[a..b] == [];
    }
  }

  lemma {:induction false} SlicesConserve(rows: seq<Daily>, points: seq<Point>, k: nat)
    requires Tracks(rows, points) && |rows| > TRACK_CAP && k <= TRACK_CAP
    ensures Cut(|rows|, k) <= |rows|
    ensures PointElsets(points[..k]) == Elsets(rows[..Cut(|rows|, k)])
  {
    CutBounds(|rows|, k);
    if k == 0 {
      assert points[..0] == [] && rows[..0] == [];
    } else {
      SlicesConserve(rows, points, k - 1);
      assert IsSlice(rows, k - 1, points[k - 1]);
      ElsetsSplit(rows, Cut(|rows|, k - 1), Cut(|rows|, k));
      assert points[..k][..k - 1] == points[..k - 1];
    }
  }

  lemma {:induction false} RowsConserve(rows: seq<Daily>, points: seq<Point>, k: nat)
    requires Tracks(rows, points) && |rows| <= TRACK_CAP && k <= |rows|
    ensures PointElsets(points[..k]) == Elsets(rows[..k])
  {
    if k > 0 {
      RowsConserve(rows, points, k - 1);
      assert points[..k][..k - 1] == points[..k - 1] && rows[..k][..k - 1] == rows[..k - 1];
    }
  }

  /** Element-set counts are conserved in total. */
  lemma ElsetsConserved(rows: seq<Daily>, points: seq<Point>)
    requires Tracks(rows, points)
    ensures PointElsets(points) == Elsets(rows)
  {
    assert points[..|points|] == points && rows[..|rows|] == rows;
    if |rows| <= TRACK_CAP {
      RowsConserve(rows, points, |rows|);
    } else {
      CutBounds(|rows|, TRACK_CAP);
      SlicesConserve(rows, points, TRACK_CAP);
    }
  }

  lemma SliceDay(rows: seq<Daily>, i: nat, p: Point) returns (r: nat)
    requires IsSlice(rows, i, p)
    ensures Cut(|rows|, i) <= r < Cut(|rows|, i + 1) <= |rows| && p.day == rows[r].day
  {
    var chunk := rows[Cut(|rows|, i)..Cut(|rows|, i + 1)];
    r := Cut(|rows|, i) + |chunk| / 2;
    assert chunk[|chunk| / 2] == rows[r];
  }

  /** On strictly increasing days the points' days strictly increase. */
  lemma MidpointsAscend(rows: seq<Daily>, points: seq<Point>)
    requires Tracks(rows, points) && DaysAscend(rows)
    ensures forall i, j :: 0 <= i < j < |points| ==> points[i].day < points[j].day
  {
    if |rows| > TRACK_CAP {
      forall i, j | 0 <= i < j < |points| ensures points[i].day < points[j].day {
        var a := SliceDay(rows, i, points[i]);
        var b := SliceDay(rows, j, points[j]);
        CutsAscend(|rows|, i + 1, j);
      }
    }
  }

  /** The mean of one column of a slice lies within what its own rows recorded. */
  lemma ColumnWithinRows(chunk: seq<Daily>, f: Daily -> Option<real>, lo: real, hi: real)
    requires forall r :: r in chunk && f(r).Some? ==> lo <= f(r).value <= hi
    ensures Avg(Column(chunk, f)).None? <==> forall r :: r in chunk ==> f(r).None?
    ensures Avg(Column(chunk, f)).Some? ==> lo <= Avg(Column(chunk, f)).value <= hi
  {
    var column := Column(chunk, f);
    forall r | r in chunk ensures f(r) in column {
      var i :| 0 <= i < |chunk| && chunk[i] == r;
      assert column[i] == f(r);
    }
    AvgWithinBounds(column, lo, hi);
  }

  predicate Between(v: Option<real>, lo: real, hi: real) { v.Some? ==> lo <= v.value <= hi }

  /** A point's semi-major axis, perigee and apogee lie within what its own rows recorded, and each is
      absent exactly when no row has it. */
  lemma BucketWithinRows(chunk: seq<Daily>, lo: Point, hi: Point)
    requires chunk != []
    requires lo.sma.Some? && lo.perigee.Some? && lo.apogee.Some?
    requires hi.sma.Some? && hi.perigee.Some? && hi.apogee.Some?
    requires forall r :: r in chunk ==>
      && Between(r.sma, lo.sma.value, hi.sma.value)
      && Between(r.perigee, lo.perigee.value, hi.perigee.value)
      && Between(r.apogee, lo.apogee.value, hi.apogee.value)
    ensures var p := Bucket(chunk);
      && Between(p.sma, lo.sma.value, hi.sma.value)
      && Between(p.perigee, lo.perigee.value, hi.perigee.value)
      && Between(p.apogee, lo.apogee.value, hi.apogee.value)
      && (p.sma.None? <==> forall r :: r in chunk ==> r.sma.None?)
      && (p.perigee.None? <==> forall r :: r in chunk ==> r.perigee.None?)
      && (p.apogee.None? <==> forall r :: r in chunk ==> r.apogee.None?)
  {
    ColumnWithinRows(chunk, (r: Daily) => r.sma, lo.sma.value, hi.sma.value);
    ColumnWithinRows(chunk, (r: Daily) => r.perigee, lo.perigee.value, hi.perigee.value);
    ColumnWithinRows(chunk, (r: Daily) => r.apogee, lo.apogee.value, hi.apogee.value);
  }

  /** A row of a short series is its own point, a missing count being none. */
  lemma PointIs(r: Daily)
    ensures var p := PointOf(r);
      && p.day == r.day && p.sma == r.sma && p.perigee == r.perigee && p.apogee == r.apogee
      && p.elsets == match r.elsets case Some(n) => n case None => 0
  {
  }

  /** A slice runs from i * n // 400 to (i + 1) * n // 400. */
  lemma SliceIs(rows: seq<Daily>, i: nat, p: Point)
    requires IsSlice(rows, i, p)
    ensures i < 400 && 0 <= i * |rows| / 400 < (i + 1) * |rows| / 400 <= |rows|
    ensures p == Bucket(rows[i * |rows| / 400..(i + 1) * |rows| / 400])
  {
  }

  /** The day of a slice is its middle row's: half of the slice, rounded down, comes before it. */
  lemma MiddleDay(chunk: seq<Daily>, m: nat)
    requires chunk != [] && 2 * m <= |chunk| < 2 * m + 2
    ensures m < |chunk| && Bucket(chunk).day == chunk[m].day
  {
    assert |chunk| / 2 == m;
  }

  /** The mean, times how many values there are, is their sum. */
  lemma {:induction false} AvgIsMean(values: seq<Option<real>>)
    ensures Avg(values).Some? ==> Avg(values).value * (|Present(values)| as real) == Total(Present(values))
  {
    var nums := Present(values);
    if |nums| > 0 {
      DivTimes(Total(nums), |nums| as real);
    }
  }

  lemma DivTimes(x: real, n: real)
    requires n != 0.0
    ensures x / n * n == x
  {
  }

  /** Of a column's values the absent ones count for nothing. */
  lemma PresentIs(values: seq<Option<real>>, v: Option<real>)
    ensures Present([]) == [] && Present(values + [v]) == if v.Some? then Present(values) + [v.value] else Present(values)
  {
    var all := values + [v];
    assert all[..|all| - 1] == values && all[|all| - 1] == v;
  }

  lemma TotalIs(nums: seq<real>, x: real)
    ensures Total([]) == 0.0 && Total(nums + [x]) == Total(nums) + x
  {
    var all := nums + [x];
    assert all[..|all| - 1] == nums && all[|all| - 1] == x;
  }

  /** The i-th entries of the three columns are the i-th row's values. */
  ghost predicate ColumnsAt(chunk: seq<Daily>, i: nat, sma: seq<Option<real>>, perigee: seq<Option<real>>,
                            apogee: seq<Option<real>>)
  {
    && |sma| == |perigee| == |apogee| == |chunk| && i < |chunk|
    && sma[i] == chunk[i].sma && perigee[i] == chunk[i].perigee && apogee[i] == chunk[i].apogee
  }

  ghost predicate MeansOf(p: Point, sma: seq<Option<real>>, perigee: seq<Option<real>>, apogee: seq<Option<real>>) {
    p.sma == Avg(sma) && p.perigee == Avg(perigee) && p.apogee == Avg(apogee)
  }

  /** Each mean is over its own column. */
  lemma BucketColumns(chunk: seq<Daily>, sma: seq<Option<real>>, perigee: seq<Option<real>>, apogee: seq<Option<real>>)
    requires chunk != [] && forall i: nat :: i < |chunk| ==> ColumnsAt(chunk, i, sma, perigee, apogee)
    ensures MeansOf(Bucket(chunk), sma, perigee, apogee)
  {
    assert ColumnsAt(chunk, 0, sma, perigee, apogee);
    forall i: nat | i < |chunk|
      ensures sma[i] == chunk[i].sma && perigee[i] == chunk[i].perigee && apogee[i] == chunk[i].apogee
    {
      assert ColumnsAt(chunk, i, sma, perigee, apogee);
    }
    assert sma == Column(chunk, (r: Daily) => r.sma);
    assert perigee == Column(chunk, (r: Daily) => r.perigee);
    assert apogee == Column(chunk, (r: Daily) => r.apogee);
  }
}
