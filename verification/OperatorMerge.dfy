/** The operator merge: annotating cohorts with operators, recording retired slugs and folding the
    cohorts of one operator together (identity/bus.py). */
module OperatorMerge {
  import opened Wrappers

  /** A group code, by its place in the collation order. */
  datatype Code = Code(rank: nat)

  /** What a cohort is published as. The slug is NULL for a code without a letter or digit. */
  datatype Label = Label(name: string, country: Option<string>, slug: Option<string>)

  /** A row of satellite_bus: its cohort, the cohort's operator, and whether the merge rewrote it. */
  datatype Row = Row(code: Option<Code>, op: Option<int>, shown: Label, merged: bool)

  datatype AliasRow = AliasRow(alias: Code, op: int, source: string)

  /** A satellite, by its id. */
  datatype Sat = Sat(id: int)

  type Rows = map<Sat, Row>

  // ----- picking the first of a finite order --------------------------------------------

  lemma {:induction false} FirstExists<T>(s: set<T>, le: (T, T) -> bool) returns (m: T)
    requires s != {}
    requires forall a, b :: a in s && b in s ==> le(a, b) || le(b, a)
    requires forall a, b, c :: a in s && b in s && c in s && le(a, b) && le(b, c) ==> le(a, c)
    ensures m in s && forall x :: x in s ==> le(m, x)
  {
    var one :| one in s;
    var rest := s - {one};
    if rest == {} {
      m := one;
      assert s == {one};
    } else {
      var r := FirstExists(rest, le);
      m := if le(one, r) then one else r;
      forall x | x in s ensures le(m, x) { assert x == one || x in rest; }
    }
  }

  // ----- which operator a code belongs to -----------------------------------------------

  /** Country codes share the namespace, so only these sources name an organisation. */
  predicate Trusted(source: string) { source == "seed" || source == "gcat_orgs" || source == "gcat" }

  function SourceRank(source: string): nat {
    if source == "seed" then 0 else if source == "gcat_orgs" then 1 else 2
  }

  predicate Before(a: AliasRow, b: AliasRow) {
    SourceRank(a.source) < SourceRank(b.source) ||
    (SourceRank(a.source) == SourceRank(b.source) && a.op <= b.op)
  }

  predicate Names(a: AliasRow, c: Code) { a.alias == c && Trusted(a.source) }

  function Candidates(aliases: set<AliasRow>, c: Code): set<AliasRow> {
    set a | a in aliases && Names(a, c)
  }

  /** `alias1`: the operator an alias resolves to. */
  function OperatorOf(aliases: set<AliasRow>, c: Code): (r: Option<int>)
    ensures r.None? <==> forall a :: a in aliases ==> !Names(a, c)
    ensures r.Some? ==>
      exists a :: a in aliases && Names(a, c) && a.op == r.value &&
        forall b :: b in aliases && Names(b, c) ==> Before(a, b)
  {
    var all := Candidates(aliases, c);
    if all == {} then
      assert forall a :: a in aliases && Names(a, c) ==> a in all;
      None
    else
      BestExists(all);
      var best :| best in all && forall b | b in all :: Before(best, b);
      Some(best.op)
  }

  lemma BestExists(all: set<AliasRow>)
    requires all != {}
    ensures exists best :: best in all && forall b | b in all :: Before(best, b)
  {
    var best := FirstExists(all, (a, b) => Before(a, b));
    forall b | b in all ensures Before(best, b) { }
  }

  // ----- cohorts ------------------------------------------------------------------------

  predicate In(r: Row, op: int, c: Code) { r.op == Some(op) && r.code == Some(c) }

  function Cohort(rows: Rows, op: int, c: Code): set<Sat> { set s | s in rows && In(rows[s], op, c) }

  function Fleet(rows: Rows, op: int, c: Code): nat { |Cohort(rows, op, c)| }

  /** The satellites an operator's cohorts hold together. */
  function OfOperator(rows: Rows, op: int): set<Sat> {
    set s | s in rows && rows[s].op == Some(op) && rows[s].code.Some?
  }

  function Codes(rows: Rows, op: int): set<Code> {
    set s | s in OfOperator(rows, op) :: rows[s].code.value
  }

  /** Larger fleet first, then the lower code. */
  predicate Leads(rows: Rows, op: int, c: Code, d: Code) {
    Fleet(rows, op, c) > Fleet(rows, op, d) ||
    (Fleet(rows, op, c) == Fleet(rows, op, d) && c.rank <= d.rank)
  }

  /** `rep`: the code an operator's cohorts are merged under. */
  function Rep(rows: Rows, op: int): (c: Code)
    requires Codes(rows, op) != {}
    ensures c in Codes(rows, op) && forall d :: d in Codes(rows, op) ==> Leads(rows, op, c, d)
  {
    LeaderExists(rows, op);
    var c :| c in Codes(rows, op) && forall d | d in Codes(rows, op) :: Leads(rows, op, c, d);
    c
  }

  lemma LeaderExists(rows: Rows, op: int)
    requires Codes(rows, op) != {}
    ensures exists c :: c in Codes(rows, op) && forall d | d in Codes(rows, op) :: Leads(rows, op, c, d)
  {
    var c := FirstExists(Codes(rows, op), (c, d) => Leads(rows, op, c, d));
    forall d | d in Codes(rows, op) ensures Leads(rows, op, c, d) { }
  }

  /** Only an operator with at least two cohorts is merged. */
  predicate Retires(rows: Rows, r: Row) {
    && r.op.Some? && r.code.Some? && |Codes(rows, r.op.value)| >= 2
    && r.code.value != Rep(rows, r.op.value)
  }

  function MergedRow(rows: Rows, r: Row, show: Code -> Label): Row {
    if Retires(rows, r) then
      var c := Rep(rows, r.op.value);
      Row(Some(c), r.op, show(c), true)
    else r
  }

  function Merged(rows: Rows, show: Code -> Label): Rows {
    map s | s in rows :: MergedRow(rows, rows[s], show)
  }

  function Annotated(rows: Rows, aliases: set<AliasRow>): Rows {
    map s | s in rows :: AnnotatedRow(rows[s], aliases)
  }

  /** A row whose code resolves takes that operator; any other row keeps what it has. */
  function AnnotatedRow(r: Row, aliases: set<AliasRow>): Row {
    if r.code.None? || OperatorOf(aliases, r.code.value).None? then r
    else r.(op := OperatorOf(aliases, r.code.value))
  }

  ghost predicate AgreeOnOperator(rows: Rows) {
    forall s, t :: s in rows && t in rows && SameCode(rows[s], rows[t]) ==> rows[s].op == rows[t].op
  }

  // ----- redirects ----------------------------------------------------------------------

  /** The retired slug of a row and the slug that replaces it, when both exist and differ. */
  function Redirect(rows: Rows, r: Row, show: Code -> Label): Option<(string, string)> {
    if !Retires(rows, r) then None
    else
      var (was, now) := (r.shown.slug, show(Rep(rows, r.op.value)).slug);
      if was.Some? && now.Some? && was != now then Some((was.value, now.value)) else None
  }

  function Redirects(rows: Rows, show: Code -> Label): set<(string, string)> {
    set s | s in rows && Redirect(rows, rows[s], show).Some? :: Redirect(rows, rows[s], show).value
  }

  predicate Live(rows: Rows, slug: string) { exists s :: s in rows && rows[s].shown.slug == Some(slug) }

  /** A published address answers when its cohort is live or one redirect away from a live one. */
  predicate Served(rows: Rows, redirects: map<string, string>, slug: string) {
    Live(rows, slug) || (slug in redirects && Live(rows, redirects[slug]))
  }

  /** `redirects` after inserting the pairs: a slug already redirected keeps its row, and of several
      pairs for one slug a single one is kept. */
  ghost predicate Recorded(was: map<string, string>, pairs: set<(string, string)>, now: map<string, string>) {
    && (forall s :: s in now <==> s in was || exists p :: p in pairs && p.0 == s)
    && (forall s :: s in now ==> if s in was then now[s] == was[s] else (s, now[s]) in pairs)
  }

  lemma RecordedStep(
      was: map<string, string>, done: set<(string, string)>, now: map<string, string>, p: (string, string))
    requires Recorded(was, done, now)
    ensures Recorded(was, done + {p}, if p.0 in now then now else now[p.0 := p.1])
  {
    var after := if p.0 in now then now else now[p.0 := p.1];
    forall s ensures s in after <==> s in was || exists q :: q in done + {p} && q.0 == s {
      if s in now && s !in was {
        var q :| q in done && q.0 == s;
        assert q in done + {p};
      }
      if s == p.0 { assert p in done + {p}; }
    }
  }

  /** ON CONFLICT DO NOTHING: the pairs go in one after the other, skipping a slug that is there. */
  method InsertMissing(was: map<string, string>, pairs: set<(string, string)>)
    returns (now: map<string, string>, added: nat)
    ensures Recorded(was, pairs, now)
    ensures added == |now| - |was|
  {
    now, added := was, 0;
    var todo := pairs;
    ghost var done := {};
    while todo != {}
      invariant done + todo == pairs
      invariant Recorded(was, done, now)
      invariant added == |now| - |was|
      decreases |todo|
    {
      var p :| p in todo;
      RecordedStep(was, done, now, p);
      if p.0 !in now {
        now := now[p.0 := p.1];
        added := added + 1;
      }
      todo, done := todo - {p}, done + {p};
    }
    assert done == pairs;
  }

  // ----- the two updates, row by row ----------------------------------------------------

  method AnnotateRows(rows: Rows, aliases: set<AliasRow>) returns (now: Rows)
    ensures now == Annotated(rows, aliases)
  {
    now := rows;
    var left := rows.Keys;
    while left != {}
      invariant left <= rows.Keys && forall s :: s in now <==> s in rows
      invariant forall s :: s in rows ==>
        now[s] == if s in left then rows[s] else AnnotatedRow(rows[s], aliases)
      decreases left
    {
      var s :| s in left;
      if rows[s].code.Some? {
        var found := OperatorOf(aliases, rows[s].code.value);
        if found.Some? { now := now[s := rows[s].(op := found)]; }
      }
      left := left - {s};
    }
  }

  /** Every row is judged against the state before the statement. */
  method MergeRows(rows: Rows, show: Code -> Label) returns (now: Rows, count: nat)
    ensures now == Merged(rows, show)
    ensures count == |set s | s in rows && now[s].code != rows[s].code|
  {
    now, count := rows, 0;
    var left := rows.Keys;
    ghost var changed: set<Sat> := {};
    while left != {}
      invariant left <= rows.Keys && forall s :: s in now <==> s in rows
      invariant forall s :: s in rows ==>
        now[s] == if s in left then rows[s] else MergedRow(rows, rows[s], show)
      invariant forall s :: s in changed <==> s in rows && s !in left && Retires(rows, rows[s])
      invariant count == |changed|
      decreases left
    {
      var s :| s in left;
      if Retires(rows, rows[s]) {
        var c := Rep(rows, rows[s].op.value);
        now := now[s := Row(Some(c), rows[s].op, show(c), true)];
        count := count + 1;
        changed := changed + {s};
      }
      left := left - {s};
    }
    assert changed == set s | s in rows && now[s].code != rows[s].code;
  }

  // ----- the table ----------------------------------------------------------------------

  /** satellite_bus and the manufacturer rows of benchmark_slug_alias. */
  class BusTable {
    var rows: Rows
    var redirects: map<string, string>

    constructor (rows: Rows, redirects: map<string, string>)
      ensures this.rows == rows && this.redirects == redirects
    {
      this.rows, this.redirects := rows, redirects;
    }

    /** _ANNOTATE_GROUP_SQL, row by row: a row whose code a trusted alias names takes the operator of the
        alias nothing precedes, and rows of one code that agreed on the operator still do. */
    method AnnotateGroups(aliases: set<AliasRow>)
      modifies this`rows
      ensures rows == Annotated(old(rows), aliases)
      ensures forall s :: s in rows && rows[s].op != old(rows)[s].op ==>
        exists a :: a in aliases && rows[s].code.Some? && Names(a, rows[s].code.value)
          && rows[s].op == Some(a.op)
          && forall b :: b in aliases && Names(b, rows[s].code.value) ==> Before(a, b)
      ensures AgreeOnOperator(old(rows)) ==> AgreeOnOperator(rows)
    {
      rows := AnnotateRows(rows, aliases);
    }

    /** _ALIAS_UPSERT_SQL */
    method RecordRetired(show: Code -> Label) returns (added: nat)
      modifies this`redirects
      ensures Recorded(old(redirects), Redirects(rows, show), redirects)
      ensures added == |redirects| - |old(redirects)|
    {
      var pairs := Redirects(rows, show);
      redirects, added := InsertMissing(redirects, pairs);
    }

    /** _OPERATOR_MERGE_SQL, row by row against the state before it. The count is the rows whose cohort
        changed; on annotated tables two rows share a cohort afterwards exactly when they shared one
        before or have the same operator. */
    method MergeCohorts(show: Code -> Label) returns (count: nat)
      modifies this`rows
      ensures rows == Merged(old(rows), show)
      ensures rows.Keys == old(rows).Keys
      ensures count == |set s | s in rows && rows[s].code != old(rows)[s].code|
      ensures Consistent(old(rows), show) ==>
        forall s, t :: s in rows && t in rows ==>
          (SameCode(rows[s], rows[t]) <==>
            SameCode(old(rows)[s], old(rows)[t]) || SameOperator(old(rows)[s], old(rows)[t]))
    {
      if Consistent(rows, show) { MergeOnlyJoins(rows, show); }
      rows, count := MergeRows(rows, show);
    }

    /** The tail of `build`: the redirects are recorded on the state before the merge. */
    method Build(aliases: set<AliasRow>, show: Code -> Label) returns (added: nat, merged: nat)
      modifies this
      ensures var start := Annotated(old(rows), aliases);
        && rows == Merged(start, show)
        && Recorded(old(redirects), Redirects(start, show), redirects)
        && added == |redirects| - |old(redirects)|
        && merged == |set s | s in start && rows[s].code != start[s].code|
    {
      AnnotateGroups(aliases);
      added := RecordRetired(show);
      merged := MergeCohorts(show);
    }
  }

  // ----- what the merge does ------------------------------------------------------------

  /** Rows of one code agree on the operator, and show what the code shows; a row without a code has
      neither an operator nor a slug. */
  ghost predicate Consistent(rows: Rows, show: Code -> Label) {
    && AgreeOnOperator(rows)
    && (forall s :: s in rows && rows[s].code.Some? ==> rows[s].shown == show(rows[s].code.value))
    && (forall s :: s in rows && rows[s].code.None? ==> rows[s].op.None? && rows[s].shown.slug.None?)
  }

  predicate SameCode(a: Row, b: Row) { a.code.Some? && a.code == b.code }

  predicate SameOperator(a: Row, b: Row) { a.op.Some? && a.op == b.op }

  /** What the attribution query leaves: operators not yet annotated. */
  ghost predicate JustBuilt(rows: Rows, show: Code -> Label) {
    && (forall s :: s in rows ==> rows[s].op.None? && !rows[s].merged)
    && (forall s :: s in rows && rows[s].code.Some? ==> rows[s].shown == show(rows[s].code.value))
    && (forall s :: s in rows && rows[s].code.None? ==> rows[s].shown.slug.None?)
  }

  /** Annotating gives the operator as a function of the code, which is what keeps the merge from
      splitting a cohort. */
  lemma AnnotatedIsConsistent(rows: Rows, aliases: set<AliasRow>, show: Code -> Label)
    requires JustBuilt(rows, show)
    ensures Consistent(Annotated(rows, aliases), show)
    ensures forall s :: s in rows && rows[s].code.Some? ==>
      Annotated(rows, aliases)[s].op == OperatorOf(aliases, rows[s].code.value)
  {
  }

  lemma RowCounts(rows: Rows, s: Sat)
    requires s in rows && rows[s].op.Some? && rows[s].code.Some?
    ensures s in OfOperator(rows, rows[s].op.value)
    ensures rows[s].code.value in Codes(rows, rows[s].op.value)
  {
  }

  /** Every row of an operator ends under its representative, merged or not. */
  lemma EndsUnderRep(rows: Rows, s: Sat, show: Code -> Label)
    requires Consistent(rows, show) && s in rows && rows[s].op.Some?
    ensures rows[s].code.Some? && Codes(rows, rows[s].op.value) != {}
    ensures var c := Rep(rows, rows[s].op.value);
      Merged(rows, show)[s] == Row(Some(c), rows[s].op, show(c), rows[s].merged || rows[s].code != Some(c))
  {
    var op := rows[s].op.value;
    RowCounts(rows, s);
    var c := Rep(rows, op);
    if rows[s].code.value != c {
      var all := Codes(rows, op);
      assert {rows[s].code.value, c} <= all;
      SubsetSize({rows[s].code.value, c}, all);
      assert |{rows[s].code.value, c}| == 2;
    }
  }

  /** Which code survives, with the counts written out: every code the operator had before names at most as
      many satellites as the one its rows end under, and a code with as many is not lower. */
  lemma LargestSurvives(rows: Rows, op: int, s: Sat, d: Code, show: Code -> Label)
    requires Consistent(rows, show) && s in rows && rows[s].op == Some(op)
    requires exists t :: t in rows && rows[t].op == Some(op) && rows[t].code == Some(d)
    ensures Merged(rows, show)[s].code.Some?
    ensures var c := Merged(rows, show)[s].code.value;
      var under := set t | t in rows && rows[t].op == Some(op) && rows[t].code == Some(c);
      var other := set t | t in rows && rows[t].op == Some(op) && rows[t].code == Some(d);
      && |under| >= |other| && (|under| == |other| ==> c.rank <= d.rank)
      && Merged(rows, show)[s].shown == show(c)
      && exists t :: t in rows && rows[t].op == Some(op) && rows[t].code == Some(c)
  {
    EndsUnderRep(rows, s, show);
    var t :| t in rows && rows[t].op == Some(op) && rows[t].code == Some(d);
    RowCounts(rows, t);
    var c := Rep(rows, op);
    var r := RepRowExists(rows, op);
    assert Leads(rows, op, c, d);
    assert Cohort(rows, op, c) == set x | x in rows && rows[x].op == Some(op) && rows[x].code == Some(c);
    assert Cohort(rows, op, d) == set x | x in rows && rows[x].op == Some(op) && rows[x].code == Some(d);
  }

  /** Three satellites under one code and one under a lower one: all end under the larger cohort's. */
  lemma ThreeBeatOne(rows: Rows, show: Code -> Label, s: Sat)
    requires rows == map[
      Sat(1) := Row(Some(Code(5)), Some(7), show(Code(5)), false),
      Sat(2) := Row(Some(Code(5)), Some(7), show(Code(5)), false),
      Sat(3) := Row(Some(Code(5)), Some(7), show(Code(5)), false),
      Sat(4) := Row(Some(Code(1)), Some(7), show(Code(1)), false)]
    requires s in rows
    ensures Merged(rows, show)[s].code == Some(Code(5))
  {
    assert Consistent(rows, show);
    assert rows[Sat(1)].code == Some(Code(5)) && rows[Sat(4)].code == Some(Code(1));
    LargestSurvives(rows, 7, s, Code(5), show);
    var big := set t | t in rows && rows[t].op == Some(7) && rows[t].code == Some(Code(5));
    var small := set t | t in rows && rows[t].op == Some(7) && rows[t].code == Some(Code(1));
    assert big == {Sat(1), Sat(2), Sat(3)} && small == {Sat(4)};
  }

  /** Which operator a code belongs to, by the sources' own names: a seed alias before one from the GCAT
      organisations before a GCAT one, the lowest operator of the best source, and no other source. */
  lemma OperatorBySource(aliases: set<AliasRow>, c: Code)
    ensures OperatorOf(aliases, c) == None <==>
      !HasFrom(aliases, c, "seed") && !HasFrom(aliases, c, "gcat_orgs") && !HasFrom(aliases, c, "gcat")
    ensures OperatorOf(aliases, c).Some? ==>
      var source :=
        if HasFrom(aliases, c, "seed") then "seed" else if HasFrom(aliases, c, "gcat_orgs") then "gcat_orgs" else "gcat";
      LowestFrom(aliases, c, source, OperatorOf(aliases, c).value)
  {
    assert "seed" != "gcat" && "seed" != "gcat_orgs" && |"gcat"| != |"gcat_orgs"|;
    forall a | a in aliases ensures Names(a, c) <==>
      IsFrom(a, c, "seed") || IsFrom(a, c, "gcat_orgs") || IsFrom(a, c, "gcat")
    {
    }
  }

  predicate IsFrom(a: AliasRow, c: Code, source: string) { a.alias == c && a.source == source }

  predicate HasFrom(aliases: set<AliasRow>, c: Code, source: string) {
    exists a :: a in aliases && IsFrom(a, c, source)
  }

  /** The lowest operator that a source gives the code. */
  predicate LowestFrom(aliases: set<AliasRow>, c: Code, source: string, op: int) {
    && (exists a :: a in aliases && IsFrom(a, c, source) && a.op == op)
    && forall a :: a in aliases && IsFrom(a, c, source) ==> op <= a.op
  }

  lemma NoOperatorUntouched(rows: Rows, s: Sat, show: Code -> Label)
    requires s in rows && (rows[s].op.None? || rows[s].code.None?)
    ensures Merged(rows, show)[s] == rows[s]
  {
  }

  lemma RepRowExists(rows: Rows, op: int) returns (s: Sat)
    requires Codes(rows, op) != {}
    ensures s in rows && In(rows[s], op, Rep(rows, op))
  {
    var c := Rep(rows, op);
    s :| s in OfOperator(rows, op) && rows[s].code.value == c;
  }

  /** The merge only joins: two satellites share a cohort afterwards exactly when they shared one
      before or have the same operator. */
  lemma CohortsOnlyJoin(rows: Rows, s: Sat, t: Sat, show: Code -> Label)
    requires Consistent(rows, show) && s in rows && t in rows
    ensures SameCode(Merged(rows, show)[s], Merged(rows, show)[t]) <==>
      SameCode(rows[s], rows[t]) || SameOperator(rows[s], rows[t])
  {
    if rows[s].op.Some? {
      EndsUnderRep(rows, s, show);
      var a := RepRowExists(rows, rows[s].op.value);
      assert SameCode(rows[a], rows[t]) ==> rows[a].op == rows[t].op;
    }
    if rows[t].op.Some? {
      EndsUnderRep(rows, t, show);
      var b := RepRowExists(rows, rows[t].op.value);
      assert SameCode(rows[b], rows[s]) ==> rows[b].op == rows[s].op;
      if rows[s].op.Some? {
        var a := RepRowExists(rows, rows[s].op.value);
        assert SameCode(rows[a], rows[b]) ==> rows[a].op == rows[b].op;
      }
    }
  }

  lemma MergeOnlyJoins(rows: Rows, show: Code -> Label)
    requires Consistent(rows, show)
    ensures forall s, t :: s in rows && t in rows ==>
      (SameCode(Merged(rows, show)[s], Merged(rows, show)[t]) <==>
        SameCode(rows[s], rows[t]) || SameOperator(rows[s], rows[t]))
  {
    forall s, t | s in rows && t in rows
      ensures SameCode(Merged(rows, show)[s], Merged(rows, show)[t]) <==>
        SameCode(rows[s], rows[t]) || SameOperator(rows[s], rows[t])
    {
      CohortsOnlyJoin(rows, s, t, show);
    }
  }

  /** Each operator is left with one cohort, under its largest code before the merge (the lower code
      in a tie), and that cohort is everything the operator had. */
  lemma OneCohortPerOperator(rows: Rows, op: int, show: Code -> Label)
    requires Consistent(rows, show) && Codes(rows, op) != {}
    ensures Codes(Merged(rows, show), op) == {Rep(rows, op)}
    ensures Cohort(Merged(rows, show), op, Rep(rows, op)) == OfOperator(rows, op)
    ensures Merged(rows, show).Keys == rows.Keys
  {
    var after, c := Merged(rows, show), Rep(rows, op);
    forall s | s in rows
      ensures s in OfOperator(after, op) <==> s in OfOperator(rows, op)
      ensures s in OfOperator(rows, op) ==> after[s].code == Some(c)
    {
      if rows[s].op.Some? { EndsUnderRep(rows, s, show); }
    }
    var r := RepRowExists(rows, op);
    assert r in OfOperator(after, op) && after[r].code.value == c;
    forall s | s in rows ensures s in Cohort(after, op, c) <==> s in OfOperator(rows, op) { }
  }

  lemma MergedIsConsistent(rows: Rows, show: Code -> Label)
    requires Consistent(rows, show)
    ensures Consistent(Merged(rows, show), show)
  {
    var after := Merged(rows, show);
    forall s | s in rows ensures after[s].op == rows[s].op {
      if rows[s].op.Some? { EndsUnderRep(rows, s, show); }
    }
    forall s, t | s in rows && t in rows && SameCode(after[s], after[t]) ensures after[s].op == after[t].op {
      CohortsOnlyJoin(rows, s, t, show);
    }
    forall s | s in rows && after[s].code.Some? ensures after[s].shown == show(after[s].code.value) {
      if rows[s].op.Some? { EndsUnderRep(rows, s, show); }
    }
  }

  /** Merging again changes nothing and retires no further slug. */
  lemma MergeTwiceIsOnce(rows: Rows, show: Code -> Label)
    requires Consistent(rows, show)
    ensures Merged(Merged(rows, show), show) == Merged(rows, show)
    ensures Redirects(Merged(rows, show), show) == {}
  {
    var after := Merged(rows, show);
    MergedIsConsistent(rows, show);
    forall s | s in after ensures !Retires(after, after[s]) {
      if rows[s].op.Some? {
        EndsUnderRep(rows, s, show);
        OneCohortPerOperator(rows, rows[s].op.value, show);
      }
    }
    forall s | s in after ensures Merged(after, show)[s] == after[s] { }
  }

  // ----- published slugs ----------------------------------------------------------------

  /** A row that keeps its slug through the merge. */
  predicate KeepsSlug(rows: Rows, r: Row, show: Code -> Label) {
    !Retires(rows, r) || show(Rep(rows, r.op.value)).slug == r.shown.slug
  }

  lemma RepSlugStaysLive(rows: Rows, op: int, show: Code -> Label)
    requires Consistent(rows, show) && Codes(rows, op) != {} && show(Rep(rows, op)).slug.Some?
    ensures Live(Merged(rows, show), show(Rep(rows, op)).slug.value)
  {
    var s := RepRowExists(rows, op);
    EndsUnderRep(rows, s, show);
  }

  /** A slug some row keeps. */
  predicate Stays(rows: Rows, slug: string, show: Code -> Label) {
    exists s :: s in rows && rows[s].shown.slug == Some(slug) && KeepsSlug(rows, rows[s], show)
  }

  /** A slug some row trades for another one. */
  predicate Replaced(rows: Rows, slug: string, show: Code -> Label) {
    exists s :: s in rows && rows[s].shown.slug == Some(slug) && Redirect(rows, rows[s], show).Some?
  }

  /** The merge mints no slug: live afterwards is what some row kept. */
  lemma LiveAfterIff(rows: Rows, slug: string, show: Code -> Label)
    requires Consistent(rows, show)
    ensures Live(Merged(rows, show), slug) <==> Stays(rows, slug, show)
  {
    var after := Merged(rows, show);
    if Live(after, slug) {
      var s :| s in after && after[s].shown.slug == Some(slug);
      if Retires(rows, rows[s]) {
        var r := RepRowExists(rows, rows[s].op.value);
        assert rows[r].shown == show(Rep(rows, rows[s].op.value));
        assert KeepsSlug(rows, rows[r], show);
      }
    }
    if Stays(rows, slug, show) {
      var s :| s in rows && rows[s].shown.slug == Some(slug) && KeepsSlug(rows, rows[s], show);
      assert after[s].shown.slug == Some(slug);
    }
  }

  /** A slug live before the merge is live or redirected afterwards exactly when it was redirected
      already, some row keeps it, or some row trades it for another slug. What is left out is the cohort
      whose representative has no slug. */
  lemma SlugOnRecordIff(
      rows: Rows, redirects: map<string, string>, now: map<string, string>, slug: string,
      show: Code -> Label)
    requires Consistent(rows, show) && Recorded(redirects, Redirects(rows, show), now)
    ensures (Live(Merged(rows, show), slug) || slug in now) <==>
      slug in redirects || Stays(rows, slug, show) || Replaced(rows, slug, show)
  {
    LiveAfterIff(rows, slug, show);
    RedirectedIff(rows, slug, show);
  }

  lemma RedirectedIff(rows: Rows, slug: string, show: Code -> Label)
    ensures (exists p :: p in Redirects(rows, show) && p.0 == slug) <==> Replaced(rows, slug, show)
  {
    if Replaced(rows, slug, show) {
      var s :| s in rows && rows[s].shown.slug == Some(slug) && Redirect(rows, rows[s], show).Some?;
      assert Redirect(rows, rows[s], show).value in Redirects(rows, show);
    }
    if exists p :: p in Redirects(rows, show) && p.0 == slug {
      var p :| p in Redirects(rows, show) && p.0 == slug;
      var s :| s in rows && Redirect(rows, rows[s], show) == Some(p);
      assert rows[s].shown.slug == Some(slug);
    }
  }

  /** The same seen from the loss: a live slug goes off record exactly when it was not redirected before
      and every row that shows it retires into a representative whose slug is NULL. */
  lemma LiveSlugLostIff(
      rows: Rows, redirects: map<string, string>, now: map<string, string>, slug: string,
      show: Code -> Label)
    requires Consistent(rows, show) && Recorded(redirects, Redirects(rows, show), now)
    requires Live(rows, slug)
    ensures (!Live(Merged(rows, show), slug) && slug !in now) <==>
      && slug !in redirects
      && forall s :: s in rows && rows[s].shown.slug == Some(slug) ==>
        Retires(rows, rows[s]) && show(Rep(rows, rows[s].op.value)).slug.None?
  {
    SlugOnRecordIff(rows, redirects, now, slug, show);
    forall s | s in rows && rows[s].shown.slug == Some(slug)
      ensures (Retires(rows, rows[s]) && show(Rep(rows, rows[s].op.value)).slug.None?) <==>
        !KeepsSlug(rows, rows[s], show) && Redirect(rows, rows[s], show).None?
    {
    }
  }

  /** The address behind a slug still answers exactly when some row keeps the slug, or the one redirect
      on record for it leads to a slug that some row keeps; a redirect recorded by this merge always
      does. */
  lemma ServedAfterIff(
      rows: Rows, redirects: map<string, string>, now: map<string, string>, slug: string,
      show: Code -> Label)
    requires Consistent(rows, show) && Recorded(redirects, Redirects(rows, show), now)
    ensures Served(Merged(rows, show), now, slug) <==>
      Stays(rows, slug, show) ||
      (if slug in redirects then Stays(rows, redirects[slug], show) else Replaced(rows, slug, show))
  {
    LiveAfterIff(rows, slug, show);
    if slug in redirects {
      LiveAfterIff(rows, redirects[slug], show);
    } else {
      FreshRedirectIsLive(rows, redirects, now, slug, show);
    }
  }

  lemma FreshRedirectIsLive(
      rows: Rows, redirects: map<string, string>, now: map<string, string>, slug: string,
      show: Code -> Label)
    requires Consistent(rows, show) && Recorded(redirects, Redirects(rows, show), now)
    requires slug !in redirects
    ensures slug in now <==> Replaced(rows, slug, show)
    ensures slug in now ==> Live(Merged(rows, show), now[slug])
  {
    RedirectedIff(rows, slug, show);
    if slug in now {
      var p := (slug, now[slug]);
      assert p in Redirects(rows, show);
      var s :| s in rows && Redirect(rows, rows[s], show) == Some(p);
      RowCounts(rows, s);
      RepSlugStaysLive(rows, rows[s].op.value, show);
    }
  }

  // ----- where the permanent redirect fails ---------------------------------------------

  function TwoRows(a: Code, b: Code, show: Code -> Label): Rows {
    map[Sat(1) := Row(Some(a), Some(7), show(a), false), Sat(2) := Row(Some(b), Some(7), show(b), false)]
  }

  lemma TwoRowsMerge(a: Code, b: Code, show: Code -> Label)
    requires a.rank < b.rank
    ensures var rows := TwoRows(a, b, show);
      && Consistent(rows, show) && Codes(rows, 7) == {a, b} && Rep(rows, 7) == a
      && Retires(rows, rows[Sat(2)]) && !Retires(rows, rows[Sat(1)])
      && rows.Keys == {Sat(1), Sat(2)} && rows[Sat(1)].shown == show(a) && rows[Sat(2)].shown == show(b)
      && rows[Sat(1)].op == Some(7) && rows[Sat(2)].op == Some(7)
  {
    var rows := TwoRows(a, b, show);
    assert OfOperator(rows, 7) == {Sat(1), Sat(2)};
    assert Codes(rows, 7) == {a, b} by {
      assert rows[Sat(1)].code.value == a && rows[Sat(2)].code.value == b;
    }
    assert Cohort(rows, 7, a) == {Sat(1)};
    assert Cohort(rows, 7, b) == {Sat(2)};
    assert Leads(rows, 7, a, b) && !Leads(rows, 7, b, a);
  }

  /** Two one-satellite cohorts of one operator, the first code without a letter or digit: the second
      cohort's slug is neither live nor redirected afterwards. */
  lemma SlugLostToNullSlug(a: Code, b: Code, show: Code -> Label, now: map<string, string>)
    requires a.rank < b.rank && show(a).slug.None? && show(b).slug == Some("plan")
    requires Recorded(map[], Redirects(TwoRows(a, b, show), show), now)
    ensures Live(TwoRows(a, b, show), "plan")
    ensures !Live(Merged(TwoRows(a, b, show), show), "plan") && "plan" !in now
  {
    var rows := TwoRows(a, b, show);
    TwoRowsMerge(a, b, show);
    assert Live(rows, "plan");
    forall s | s in rows && rows[s].shown.slug == Some("plan") ensures s == Sat(2) { }
    LiveSlugLostIff(rows, map[], now, "plan", show);
  }

  /** A redirect row is never rewritten: when a slug that was redirected before retires again, to a
      different survivor, the old row stays and its address stops answering. */
  lemma StaleRedirectStopsAnswering(a: Code, b: Code, show: Code -> Label, now: map<string, string>)
    requires a.rank < b.rank && show(a).slug == Some("new") && show(b).slug == Some("plan")
    requires Recorded(map["plan" := "old"], Redirects(TwoRows(a, b, show), show), now)
    ensures Served(TwoRows(a, b, show), map["plan" := "old"], "plan")
    ensures !Served(Merged(TwoRows(a, b, show), show), now, "plan")
  {
    var rows := TwoRows(a, b, show);
    TwoRowsMerge(a, b, show);
    assert rows[Sat(2)].shown.slug == Some("plan");
    ServedAfterIff(rows, map["plan" := "old"], now, "plan", show);
  }
}
