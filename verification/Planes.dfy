/** Orbital planes of a Schedule S report: `parse_planes` in ingest/schedule_s.py, on the lines the
    report's orbit pattern matches. */
module Planes {

  datatype Field = Inclination | ArgPerigee | Apogee | Perigee

  datatype Unit = Degrees | Kilometres

  /** A line the pattern matched, with the unit printed on it. */
  datatype Line = Line(field: Field, value: real, unit: Unit)

  /** One value of a plane and the page it was read from. */
  datatype Cell = Cell(field: Field, value: real, page: nat)

  /** A plane is an insertion-ordered dict: its cells in reading order. */
  datatype Plane = Plane(sourcePage: nat, cells: seq<Cell>, index: nat)

  function UnitOf(f: Field): Unit {
    match f
    case Inclination => Degrees
    case ArgPerigee => Degrees
    case Apogee => Kilometres
    case Perigee => Kilometres
  }

  // ----- the input as one sequence of cells ---------------------------------------------

  /** A line whose unit is not its field's is skipped. */
  function LineCells(line: Line, page: nat): seq<Cell> {
    if line.unit == UnitOf(line.field) then [Cell(line.field, line.value, page)] else []
  }

  /** The unit-matching lines of one page, with its number. */
  function PageCells(lines: seq<Line>, page: nat): seq<Cell> {
    if lines == [] then []
    else PageCells(lines[..|lines| - 1], page) + LineCells(lines[|lines| - 1], page)
  }

  /** The unit-matching lines of a document; pages are numbered from 1. */
  function Cells(pages: seq<seq<Line>>): seq<Cell> {
    if pages == [] then []
    else Cells(pages[..|pages| - 1]) + PageCells(pages[|pages| - 1], |pages|)
  }

  // ----- segmentation -------------------------------------------------------------------

  predicate Has(cells: seq<Cell>, f: Field) {
    exists i :: 0 <= i < |cells| && cells[i].field == f
  }

  ghost predicate NoRepeat(cells: seq<Cell>) {
    forall i, j :: 0 <= i < j < |cells| ==> cells[i].field != cells[j].field
  }

  function Flatten(parts: seq<seq<Cell>>): seq<Cell> {
    if parts == [] then [] else parts[0] + Flatten(parts[1..])
  }

  /** An order-preserving split of the cells into non-empty parts without a repeated field. */
  ghost predicate IsSplit(parts: seq<seq<Cell>>, cells: seq<Cell>) {
    && Flatten(parts) == cells
    && forall i :: 0 <= i < |parts| ==> parts[i] != [] && NoRepeat(parts[i])
  }

  /** How far a part that starts at the front can reach before a field repeats. */
  function Reach(cells: seq<Cell>, n: nat): nat
    requires n <= |cells|
    ensures n <= Reach(cells, n) <= |cells|
    decreases |cells| - n
  {
    if n == |cells| || Has(cells[..n], cells[n].field) then n else Reach(cells, n + 1)
  }

  /** The greedy split: always take the longest part. */
  function Greedy(cells: seq<Cell>): seq<seq<Cell>>
    decreases |cells|
  {
    if cells == [] then []
    else
      var n := Reach(cells, 1);
      [cells[..n]] + Greedy(cells[n..])
  }

  lemma NoRepeatAppend(part: seq<Cell>, c: Cell)
    requires NoRepeat(part) && !Has(part, c.field)
    ensures NoRepeat(part + [c])
  {
  }

  lemma NoRepeatSlice(part: seq<Cell>, k: nat)
    requires NoRepeat(part) && k <= |part|
    ensures NoRepeat(part[k..])
  {
  }

  /** `Reach` is the longest repeat-free prefix. */
  lemma {:induction false} ReachIsLongest(cells: seq<Cell>, n: nat)
    requires n <= |cells| && NoRepeat(cells[..n])
    ensures NoRepeat(cells[..Reach(cells, n)])
    ensures forall m :: n <= m <= |cells| && NoRepeat(cells[..m]) ==> m <= Reach(cells, n)
    decreases |cells| - n
  {
    if n < |cells| {
      if Has(cells[..n], cells[n].field) {
        var i :| 0 <= i < n && cells[..n][i].field == cells[n].field;
        forall m | n < m <= |cells| ensures !NoRepeat(cells[..m]) {
          assert cells[..m][i].field == cells[..m][n].field;
        }
      } else {
        assert cells[..n + 1] == cells[..n] + [cells[n]];
        NoRepeatAppend(cells[..n], cells[n]);
        ReachIsLongest(cells, n + 1);
      }
    }
  }

  lemma {:induction false} GreedyIsSplit(cells: seq<Cell>)
    ensures IsSplit(Greedy(cells), cells)
    decreases |cells|
  {
    if cells != [] {
      var n := Reach(cells, 1);
      ReachIsLongest(cells, 1);
      GreedyIsSplit(cells[n..]);
      var parts := Greedy(cells);
      assert parts[1..] == Greedy(cells[n..]);
      assert cells == cells[..n] + cells[n..];
    }
  }

  /** The first part of a suffix reaches at least as far as the first part of the whole. */
  lemma SuffixReaches(cells: seq<Cell>, k: nat) returns (m: nat)
    requires cells != [] && k < Reach(cells, 1)
    ensures m == Reach(cells[k..], 1) && Reach(cells, 1) <= k + m <= |cells|
  {
    var n, rest := Reach(cells, 1), cells[k..];
    ReachIsLongest(cells, 1);
    m := Reach(rest, 1);
    ReachIsLongest(rest, 1);
    NoRepeatSlice(cells[..n], k);
    assert rest[..n - k] == cells[..n][k..];
  }

  /** Starting later never costs an extra part. */
  lemma {:induction false} GreedySuffix(cells: seq<Cell>, k: nat)
    requires k <= |cells|
    ensures |Greedy(cells[k..])| <= |Greedy(cells)|
    decreases |cells|
  {
    if cells != [] && k > 0 {
      var n := Reach(cells, 1);
      ReachIsLongest(cells, 1);
      if k >= n {
        GreedySuffix(cells[n..], k - n);
        assert cells[n..][k - n..] == cells[k..];
      } else {
        var m := SuffixReaches(cells, k);
        GreedySuffix(cells[n..], k + m - n);
        assert cells[n..][k + m - n..] == cells[k..][m..];
      }
    } else {
      assert cells[k..] == cells;
    }
  }

  /** No order-preserving split without repeated fields has fewer parts than the greedy one. */
  lemma {:induction false} GreedyIsOptimal(cells: seq<Cell>, parts: seq<seq<Cell>>)
    requires IsSplit(parts, cells)
    ensures |Greedy(cells)| <= |parts|
    decreases |parts|
  {
    if parts != [] {
      var k := |parts[0]|;
      assert cells[..k] == parts[0] && cells[k..] == Flatten(parts[1..]);
      GreedyIsOptimal(cells[k..], parts[1..]);
      var n := Reach(cells, 1);
      ReachIsLongest(cells, 1);
      assert k <= n;
      GreedySuffix(cells[k..], n - k);
      assert cells[k..][n - k..] == cells[n..];
    }
  }

  // ----- the loop -----------------------------------------------------------------------

  /** The parts closed so far and the open one; reading the cells on extends or closes it. */
  ghost predicate Scanned(cells: seq<Cell>, closed: seq<seq<Cell>>, current: seq<Cell>) {
    && NoRepeat(current)
    && Flatten(closed) + current == cells
    && (cells == [] <==> current == [])
    && forall rest: seq<Cell> :: GreedyFrom(closed, current, rest) == Greedy(cells + rest)
  }

  /** The greedy split of everything, told from the middle of the scan. */
  ghost function GreedyFrom(closed: seq<seq<Cell>>, current: seq<Cell>, rest: seq<Cell>): seq<seq<Cell>> {
    closed + Greedy(current + rest)
  }

  lemma FlattenAppend(parts: seq<seq<Cell>>, last: seq<Cell>)
    ensures Flatten(parts + [last]) == Flatten(parts) + last
  {
    if parts == [] {
      assert [last][1..] == [];
    } else {
      assert (parts + [last])[1..] == parts[1..] + [last];
      FlattenAppend(parts[1..], last);
    }
  }

  lemma NoRepeatReaches(part: seq<Cell>, rest: seq<Cell>)
    requires NoRepeat(part) && part != [] && rest != [] && Has(part, rest[0].field)
    ensures Greedy(part + rest) == [part] + Greedy(rest)
  {
    var all := part + rest;
    ReachIsLongest(all, 1);
    assert all[..|part|] == part;
    var i :| 0 <= i < |part| && part[i].field == rest[0].field;
    forall m | |part| < m <= |all| ensures !NoRepeat(all[..m]) {
      assert all[..m][i].field == all[..m][|part|].field;
    }
    assert Reach(all, 1) == |part|;
    assert all[|part|..] == rest;
  }

  lemma ScanOne(cells: seq<Cell>, closed: seq<seq<Cell>>, current: seq<Cell>, c: Cell)
    requires Scanned(cells, closed, current)
    ensures if Has(current, c.field) then Scanned(cells + [c], closed + [current], [c])
            else Scanned(cells + [c], closed, current + [c])
  {
    if Has(current, c.field) {
      FlattenAppend(closed, current);
      assert Flatten(closed + [current]) + [c] == cells + [c];
      forall rest: seq<Cell> ensures GreedyFrom(closed + [current], [c], rest) == Greedy(cells + [c] + rest) {
        NoRepeatReaches(current, [c] + rest);
        assert GreedyFrom(closed, current, [c] + rest) == Greedy(cells + ([c] + rest));
        assert cells + ([c] + rest) == cells + [c] + rest;
        assert closed + ([current] + Greedy([c] + rest)) == (closed + [current]) + Greedy([c] + rest);
      }
    } else {
      assert Flatten(closed) + (current + [c]) == cells + [c];
      forall rest: seq<Cell> ensures GreedyFrom(closed, current + [c], rest) == Greedy(cells + [c] + rest) {
        assert GreedyFrom(closed, current, [c] + rest) == Greedy(cells + ([c] + rest));
        assert cells + ([c] + rest) == cells + [c] + rest;
        assert current + ([c] + rest) == current + [c] + rest;
      }
    }
  }

  function Parts(planes: seq<Plane>): seq<seq<Cell>> {
    seq(|planes|, i requires 0 <= i < |planes| => planes[i].cells)
  }

  /** A closed plane: its source page is the page of its first cell. */
  ghost predicate PlanesOk(planes: seq<Plane>) {
    forall i :: 0 <= i < |planes| ==> planes[i].cells != [] && planes[i].sourcePage == planes[i].cells[0].page
  }

  /** The tail that `parse_planes` drops: it has neither an apogee nor an inclination. */
  predicate Dropped(part: seq<Cell>) {
    !Has(part, Apogee) && !Has(part, Inclination)
  }

  function Kept(parts: seq<seq<Cell>>): seq<seq<Cell>> {
    if parts != [] && Dropped(parts[|parts| - 1]) then parts[..|parts| - 1] else parts
  }

  /** One unit-matching line: a repeated field closes the open plane. */
  method ReadCell(planes: seq<Plane>, current: seq<Cell>, sourcePage: nat, cell: Cell, ghost cells: seq<Cell>)
    returns (planes': seq<Plane>, current': seq<Cell>, sourcePage': nat)
    requires Scanned(cells, Parts(planes), current) && PlanesOk(planes)
    requires current != [] ==> sourcePage == current[0].page
    ensures Scanned(cells + [cell], Parts(planes'), current') && PlanesOk(planes')
    ensures current' != [] && sourcePage' == current'[0].page
  {
    ScanOne(cells, Parts(planes), current, cell);
    planes', current', sourcePage' := planes, current, sourcePage;
    if Has(current, cell.field) {
      planes' := planes + [Plane(sourcePage, current, 0)];
      assert Parts(planes') == Parts(planes) + [current];
      current' := [];
    }
    if current' == [] {
      sourcePage' := cell.page;
    }
    current' := current' + [cell];
    assert Has(current, cell.field) ==> current' == [cell];
  }

  /** The planes are the greedy split of the unit-matching lines, less a final part that has
      neither an apogee nor an inclination, numbered in order. */
  method ParsePlanes(pages: seq<seq<Line>>) returns (planes: seq<Plane>)
    ensures Parts(planes) == Kept(Greedy(Cells(pages)))
    ensures PlanesOk(planes)
    ensures forall i :: 0 <= i < |planes| ==> planes[i].index == i
  {
    planes := [];
    var current: seq<Cell> := [];
    var sourcePage := 0;
    assert Parts(planes) == [];
    for p := 0 to |pages|
      invariant Scanned(Cells(pages[..p]), Parts(planes), current) && PlanesOk(planes)
      invariant current != [] ==> sourcePage == current[0].page
    {
      planes, current, sourcePage := ReadPage(planes, current, sourcePage, pages[p], p + 1, Cells(pages[..p]));
      assert pages[..p + 1][..p] == pages[..p];
    }
    assert pages[..|pages|] == pages;
    planes := Finish(planes, current, sourcePage, Cells(pages));
  }

  /** The end of the document: the open part becomes a plane if it has an apogee or an inclination,
      and the planes are numbered. */
  method Finish(planes: seq<Plane>, current: seq<Cell>, sourcePage: nat, ghost cells: seq<Cell>)
    returns (finished: seq<Plane>)
    requires Scanned(cells, Parts(planes), current) && PlanesOk(planes)
    requires current != [] ==> sourcePage == current[0].page
    ensures Parts(finished) == Kept(Greedy(cells)) && PlanesOk(finished)
    ensures forall i :: 0 <= i < |finished| ==> finished[i].index == i
  {
    LastPart(cells, Parts(planes), current);
    finished := planes;
    if Has(current, Apogee) || Has(current, Inclination) {
      finished := finished + [Plane(sourcePage, current, 0)];
      assert Parts(finished) == Parts(planes) + [current];
    }
    assert current != [] ==> (Parts(planes) + [current])[..|planes|] == Parts(planes);
    assert Parts(finished) == Kept(Greedy(cells));
    finished := Numbered(finished);
  }

  method ReadLine(planes: seq<Plane>, current: seq<Cell>, sourcePage: nat, line: Line, page: nat,
                  ghost cells: seq<Cell>)
    returns (planes': seq<Plane>, current': seq<Cell>, sourcePage': nat)
    requires Scanned(cells, Parts(planes), current) && PlanesOk(planes)
    requires current != [] ==> sourcePage == current[0].page
    ensures Scanned(cells + LineCells(line, page), Parts(planes'), current') && PlanesOk(planes')
    ensures current' != [] ==> sourcePage' == current'[0].page
  {
    if line.unit != UnitOf(line.field) {
      assert cells + LineCells(line, page) == cells;
      return planes, current, sourcePage;
    }
    planes', current', sourcePage' :=
      ReadCell(planes, current, sourcePage, Cell(line.field, line.value, page), cells);
  }

  lemma PageCellsGrow(cells: seq<Cell>, lines: seq<Line>, page: nat, n: nat)
    requires n < |lines|
    ensures cells + PageCells(lines[..n + 1], page)
         == cells + PageCells(lines[..n], page) + LineCells(lines[n], page)
  {
    assert lines[..n + 1][..n] == lines[..n];
  }

  /** The lines of one page, in order. */
  method ReadPage(planes: seq<Plane>, current: seq<Cell>, sourcePage: nat, lines: seq<Line>, page: nat,
                  ghost cells: seq<Cell>)
    returns (planes': seq<Plane>, current': seq<Cell>, sourcePage': nat)
    requires Scanned(cells, Parts(planes), current) && PlanesOk(planes)
    requires current != [] ==> sourcePage == current[0].page
    ensures Scanned(cells + PageCells(lines, page), Parts(planes'), current') && PlanesOk(planes')
    ensures current' != [] ==> sourcePage' == current'[0].page
  {
    planes', current', sourcePage' := planes, current, sourcePage;
    assert cells + PageCells(lines[..0], page) == cells;
    for n := 0 to |lines|
      invariant Scanned(cells + PageCells(lines[..n], page), Parts(planes'), current') && PlanesOk(planes')
      invariant current' != [] ==> sourcePage' == current'[0].page
    {
      PageCellsGrow(cells, lines, page, n);
      planes', current', sourcePage' := ReadLine(planes', current', sourcePage', lines[n], page,
                                                 cells + PageCells(lines[..n], page));
    }
    assert lines[..|lines|] == lines;
  }

  lemma LastPart(cells: seq<Cell>, closed: seq<seq<Cell>>, current: seq<Cell>)
    requires Scanned(cells, closed, current)
    ensures Greedy(cells) == if current == [] then closed else closed + [current]
  {
    assert GreedyFrom(closed, current, []) == Greedy(cells + []);
    assert cells + [] == cells && current + [] == current;
    if current != [] {
      ReachIsLongest(current, 1);
      assert current[..|current|] == current;
      assert current[|current|..] == [];
      assert Greedy(current) == [current] + Greedy([]);
    }
  }

  /** The final loop over `enumerate(planes)`. */
  method Numbered(planes: seq<Plane>) returns (numbered: seq<Plane>)
    ensures Parts(numbered) == Parts(planes)
    ensures |numbered| == |planes|
    ensures forall i :: 0 <= i < |planes| ==> numbered[i] == planes[i].(index := i)
  {
    numbered := planes;
    for i := 0 to |planes|
      invariant |numbered| == |planes|
      invariant forall k :: 0 <= k < i ==> numbered[k] == planes[k].(index := k)
      invariant forall k :: i <= k < |planes| ==> numbered[k] == planes[k]
    {
      numbered := numbered[i := numbered[i].(index := i)];
    }
  }

  lemma WithoutLast(greedy: seq<seq<Cell>>, cells: seq<Cell>)
    requires greedy != [] && Flatten(greedy) == cells
    ensures var parts, last := greedy[..|greedy| - 1], greedy[|greedy| - 1];
      Flatten(parts) <= cells && cells[|Flatten(parts)|..] == last
  {
    var parts, last := greedy[..|greedy| - 1], greedy[|greedy| - 1];
    FlattenAppend(parts, last);
    assert parts + [last] == greedy;
  }

  /** What a reader can rely on: no plane repeats a field; the planes in order give back every
      unit-matching line with its own page, apart from a dropped tail that has no apogee and no
      inclination; and no split without repeats could have used fewer planes. */
  lemma PlanesAreFaithful(cells: seq<Cell>, parts: seq<seq<Cell>>)
    requires parts == Kept(Greedy(cells))
    ensures forall i :: 0 <= i < |parts| ==> NoRepeat(parts[i])
    ensures Flatten(parts) <= cells
    ensures Flatten(parts) != cells ==> Dropped(cells[|Flatten(parts)|..])
    ensures forall other :: IsSplit(other, cells) ==> |parts| <= |other|
  {
    GreedyIsSplit(cells);
    var greedy := Greedy(cells);
    if parts != greedy { WithoutLast(greedy, cells); }
    KeptIsFewest(cells, parts);
  }

  lemma KeptIsFewest(cells: seq<Cell>, parts: seq<seq<Cell>>)
    requires |parts| <= |Greedy(cells)|
    ensures forall other :: IsSplit(other, cells) ==> |parts| <= |other|
  {
    forall other | IsSplit(other, cells) ensures |parts| <= |other| {
      GreedyIsOptimal(cells, other);
    }
  }

  // ----- what counts as a cell ----------------------------------------------------------

  /** Altitudes are read in kilometres and angles in degrees. */
  predicate RightUnit(line: Line) {
    match line.field
    case Apogee => line.unit == Kilometres
    case Perigee => line.unit == Kilometres
    case Inclination => line.unit == Degrees
    case ArgPerigee => line.unit == Degrees
  }

  /** The line is on the page with this number, counted from 1. */
  predicate OnPage(pages: seq<seq<Line>>, line: Line, page: nat) {
    1 <= page <= |pages| && line in pages[page - 1]
  }

  lemma {:induction false} PageCellsIff(lines: seq<Line>, page: nat, c: Cell)
    ensures c in PageCells(lines, page) <==>
      exists line :: line in lines && RightUnit(line) && c == Cell(line.field, line.value, page)
  {
    if lines != [] {
      var front, last := lines[..|lines| - 1], lines[|lines| - 1];
      PageCellsIff(front, page, c);
      assert lines == front + [last];
    }
  }

  /** The cells of a document are exactly its lines in their field's unit, each with its page's number. */
  lemma {:induction false} CellsIff(pages: seq<seq<Line>>, c: Cell)
    ensures c in Cells(pages) <==>
      exists line :: OnPage(pages, line, c.page) && RightUnit(line) && c == Cell(line.field, line.value, c.page)
  {
    if pages != [] {
      var n := |pages|;
      var front := pages[..n - 1];
      CellsIff(front, c);
      PageCellsIff(pages[n - 1], n, c);
      forall line ensures OnPage(front, line, c.page) <==> OnPage(pages, line, c.page) && c.page < n { }
    }
  }

  lemma {:induction false} PageCellsCount(lines: seq<Line>, page: nat)
    ensures |PageCells(lines, page)| == |RightLines(lines)|
    ensures forall i :: 0 <= i < |RightLines(lines)| ==>
      PageCells(lines, page)[i] == Cell(RightLines(lines)[i].field, RightLines(lines)[i].value, page)
  {
    if lines != [] { PageCellsCount(lines[..|lines| - 1], page); }
  }

  /** The lines of a page in their field's unit, in order. */
  function RightLines(lines: seq<Line>): seq<Line> {
    if lines == [] then []
    else
      var last := lines[|lines| - 1];
      RightLines(lines[..|lines| - 1]) + (if RightUnit(last) then [last] else [])
  }
}
