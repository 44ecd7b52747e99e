/** The identity graph and its two writers: identity/merge.py on the tables of
    db/migrations/0004_identity.sql and the child tables added later. */
module Graph {
  import opened Wrappers

  type SatId = int

  /** The part of a satellite_identifier key that does not name the satellite. */
  datatype Ident = Ident(idType: string, value: string, source: string)

  /** A row of a table that references satellite: the satellite, the rest of the table's uniqueness
      key, and the other columns. */
  datatype Row<K, D> = Row(sat: SatId, key: K, data: D)

  datatype Satellite = Satellite(norad: Option<int>, launch: Option<int>, name: string)

  /** gold_case is unique on (case_type, subject_ref), which does not name the satellite. */
  datatype GoldCase = GoldCase(caseType: string, subjectRef: string, sat: Option<SatId>)

  datatype LogEntry = LogEntry(surviving: SatId, merged: SatId, rule: string)

  datatype EventKind = Revived | Expired | Promoted | Declined

  datatype Event = Event(sat: SatId, kind: EventKind)

  /** Identifier rows carry whether they are current (valid_to IS NULL). */
  type Identifiers = set<Row<Ident, bool>>

  datatype Db = Db(
    sats: map<SatId, Satellite>,
    identifiers: Identifiers,
    statuses: set<Row<(int, string), string>>,           // (observed_at, source)
    operators: set<Row<(int, string, int), string>>,     // (operator_id, role, valid_from)
    buses: set<Row<(), string>>,                         // one row per satellite
    goldCases: set<GoldCase>,
    authorizations: set<Row<(string, string), string>>,  // (call_sign, frequency_range)
    credits: set<Row<string, string>>,                   // manufacturer_slug
    log: seq<LogEntry>,
    events: seq<Event>)

  // ----- one child table ----------------------------------------------------------------

  ghost predicate Unique<K(!new), D(!new)>(t: set<Row<K, D>>) {
    forall a, b :: a in t && b in t && a.sat == b.sat && a.key == b.key ==> a == b
  }

  ghost predicate References<K(!new), D(!new)>(t: set<Row<K, D>>, sats: set<SatId>) {
    forall r :: r in t ==> r.sat in sats
  }

  function Keys<K(!new,==), D(!new,==)>(t: set<Row<K, D>>, sat: SatId): set<K> {
    set r | r in t && r.sat == sat :: r.key
  }

  /** The rows the DELETE ... WHERE EXISTS removes before repointing. */
  function Colliding<K(!new,==), D(!new,==)>(t: set<Row<K, D>>, surviving: SatId, merged: SatId): set<Row<K, D>> {
    set r | r in t && r.sat == merged && r.key in Keys(t, surviving)
  }

  /** The UPDATE would put two rows on one key. */
  predicate Clashes<K(!new,==), D(!new,==)>(t: set<Row<K, D>>, from: SatId, to: SatId) {
    exists r :: r in t && r.sat == from && r.key in Keys(t, to)
  }

  function Move<K, D>(r: Row<K, D>, to: SatId): Row<K, D> {
    Row(to, r.key, r.data)
  }

  /** UPDATE ... SET satellite_id = to WHERE satellite_id = from */
  function Repoint<K(!new,==), D(!new,==)>(t: set<Row<K, D>>, from: SatId, to: SatId): set<Row<K, D>> {
    (set r | r in t && r.sat != from) + (set r | r in t && r.sat == from :: Move(r, to))
  }

  function Fold<K(!new,==), D(!new,==)>(t: set<Row<K, D>>, surviving: SatId, merged: SatId): set<Row<K, D>> {
    Repoint(t - Colliding(t, surviving, merged), merged, surviving)
  }

  /** After the DELETE the UPDATE cannot violate the table's uniqueness key, and it would violate it
      without the DELETE exactly when there was something to delete. */
  lemma DeleteMakesRoom<K(!new), D(!new)>(t: set<Row<K, D>>, surviving: SatId, merged: SatId)
    requires surviving != merged
    ensures !Clashes(t - Colliding(t, surviving, merged), merged, surviving)
    ensures Clashes(t, merged, surviving) <==> Colliding(t, surviving, merged) != {}
  {
    var rest := t - Colliding(t, surviving, merged);
    assert Keys(rest, surviving) == Keys(t, surviving) by {
      forall k | k in Keys(t, surviving) ensures k in Keys(rest, surviving) {
        var r :| r in t && r.sat == surviving && r.key == k;
        assert r in rest;
      }
    }
    if Clashes(t, merged, surviving) {
      var r :| r in t && r.sat == merged && r.key in Keys(t, surviving);
      assert r in Colliding(t, surviving, merged);
    }
    if Colliding(t, surviving, merged) != {} {
      var r :| r in Colliding(t, surviving, merged);
    }
  }

  /** Folding one table: its key still holds, the survivor ends with the union of both key sets and
      keeps its own rows, nothing points at the merged satellite, and no other satellite's rows
      change. */
  lemma FoldConserves<K(!new), D(!new)>(t: set<Row<K, D>>, surviving: SatId, merged: SatId, sats: set<SatId>)
    requires surviving != merged && Unique(t)
    requires References(t, sats)
    ensures Unique(Fold(t, surviving, merged))
    ensures Keys(Fold(t, surviving, merged), surviving) == Keys(t, surviving) + Keys(t, merged)
    ensures Keys(Fold(t, surviving, merged), merged) == {}
    ensures forall r :: r in t && r.sat == surviving ==> r in Fold(t, surviving, merged)
    ensures forall r: Row<K, D> :: r.sat != surviving && r.sat != merged ==>
      (r in Fold(t, surviving, merged) <==> r in t)
    ensures forall r :: r in t && r.sat == merged && r.key !in Keys(t, surviving) ==>
      Row(surviving, r.key, r.data) in Fold(t, surviving, merged)
    ensures (surviving in sats || Keys(t, merged) == {}) ==>
      References(Fold(t, surviving, merged), sats - {merged})
  {
    var folded := Fold(t, surviving, merged);
    forall k ensures k in Keys(folded, surviving) <==> k in Keys(t, surviving) + Keys(t, merged) {
      if k in Keys(t, surviving) {
        var r :| r in t && r.sat == surviving && r.key == k;
        assert r in folded;
      } else if k in Keys(t, merged) {
        var r :| r in t && r.sat == merged && r.key == k;
        assert Move(r, surviving) in folded;
      }
    }
    forall r | r in folded && r.sat == surviving && r !in t ensures r.key in Keys(t, merged) {
      var m :| m in t && m.sat == merged && r == Move(m, surviving);
    }
    EveryRowHasItsKey(t);
    forall r | r in t && r.sat == merged && r.key !in Keys(t, surviving)
      ensures Row(surviving, r.key, r.data) in folded
    {
      assert Move(r, surviving) == Row(surviving, r.key, r.data);
    }
  }

  lemma EveryRowHasItsKey<K(!new), D(!new)>(t: set<Row<K, D>>)
    ensures forall r :: r in t ==> r.key in Keys(t, r.sat)
  {
  }

  function Shift<K, D>(r: Row<K, D>, from: SatId, to: SatId): Row<K, D> {
    if r.sat == from then Move(r, to) else r
  }

  lemma {:induction false} ShiftSize<K(!new), D(!new)>(t: set<Row<K, D>>, from: SatId, to: SatId)
    requires forall a, b :: a in t && b in t && Shift(a, from, to) == Shift(b, from, to) ==> a == b
    ensures |set r | r in t :: Shift(r, from, to)| == |t|
  {
    if t != {} {
      var r :| r in t;
      var rest := t - {r};
      ShiftSize(rest, from, to);
      assert (set x | x in t :: Shift(x, from, to))
          == (set x | x in rest :: Shift(x, from, to)) + {Shift(r, from, to)};
    }
  }

  lemma RepointSize<K(!new), D(!new)>(t: set<Row<K, D>>, from: SatId, to: SatId)
    requires from != to && !Clashes(t, from, to)
    ensures |Repoint(t, from, to)| == |t|
  {
    EveryRowHasItsKey(t);
    ShiftSize(t, from, to);
    RepointIsShift(t, from, to);
  }

  lemma RepointIsShift<K(!new), D(!new)>(t: set<Row<K, D>>, from: SatId, to: SatId)
    ensures Repoint(t, from, to) == set r | r in t :: Shift(r, from, to)
  {
    var shifted := set r | r in t :: Shift(r, from, to);
    forall x | x in Repoint(t, from, to) ensures x in shifted {
      if !(x in t && x.sat != from) {
        var r :| r in t && r.sat == from && x == Move(r, to);
        assert x == Shift(r, from, to);
      } else {
        assert x == Shift(x, from, to);
      }
    }
  }

  lemma CollidingSize<K(!new), D(!new)>(t: set<Row<K, D>>, surviving: SatId, merged: SatId)
    requires Unique(t)
    ensures |Colliding(t, surviving, merged)| == |Keys(t, surviving) * Keys(t, merged)|
  {
    var gone := Colliding(t, surviving, merged);
    KeysSize(gone);
    forall k ensures k in Keys(t, surviving) * Keys(t, merged) <==> k in set r | r in gone :: r.key {
      if k in Keys(t, surviving) * Keys(t, merged) {
        var r :| r in t && r.sat == merged && r.key == k;
        assert r in gone;
      }
    }
    assert Keys(t, surviving) * Keys(t, merged) == set r | r in gone :: r.key;
  }

  /** Conservation: folding removes exactly the colliding rows, one for each shared key. */
  lemma FoldSize<K(!new), D(!new)>(t: set<Row<K, D>>, surviving: SatId, merged: SatId)
    requires surviving != merged && Unique(t)
    ensures |Fold(t, surviving, merged)| == |t| - |Keys(t, surviving) * Keys(t, merged)|
  {
    var gone := Colliding(t, surviving, merged);
    DeleteMakesRoom(t, surviving, merged);
    RepointSize(t - gone, merged, surviving);
    CollidingSize(t, surviving, merged);
    assert gone <= t;
  }

  lemma {:induction false} KeysSize<K(!new), D(!new)>(rows: set<Row<K, D>>)
    requires Unique(rows)
    requires forall a, b :: a in rows && b in rows ==> a.sat == b.sat
    ensures |set r | r in rows :: r.key| == |rows|
  {
    if rows != {} {
      var r :| r in rows;
      var rest := rows - {r};
      KeysSize(rest);
      assert (set x | x in rows :: x.key) == (set x | x in rest :: x.key) + {r.key};
    }
  }

  // ----- liveness of identifiers --------------------------------------------------------

  predicate Live(t: Identifiers, sat: SatId, ident: Ident) {
    Row(sat, ident, true) in t
  }

  /** Which side decides: when both hold a key the survivor's row is kept, live or not. */
  lemma SurvivorDecidesLiveness(t: Identifiers, surviving: SatId, merged: SatId, ident: Ident)
    requires surviving != merged && Unique(t)
    ensures Live(Fold(t, surviving, merged), surviving, ident) <==>
      if ident in Keys(t, surviving) then Live(t, surviving, ident) else Live(t, merged, ident)
  {
    var folded := Fold(t, surviving, merged);
    var live := Row(surviving, ident, true);
    EveryRowHasItsKey(t);
    assert live == Move(Row(merged, ident, true), surviving);
    if ident in Keys(t, surviving) {
      var r :| r in t && r.sat == surviving && r.key == ident;
      assert forall m :: m in t && m.sat == merged && m.key == ident ==>
        m in Colliding(t, surviving, merged);
    }
  }

  /** A merge keeps every key but not always its liveness: a key that was current on either side is
      current on the survivor afterwards, unless the survivor holds it expired while the merged
      side holds it current. */
  lemma LivenessLostIff(t: Identifiers, surviving: SatId, merged: SatId, ident: Ident)
    requires surviving != merged && Unique(t)
    requires Live(t, surviving, ident) || Live(t, merged, ident)
    ensures !Live(Fold(t, surviving, merged), surviving, ident)
       <==> Row(surviving, ident, false) in t && Live(t, merged, ident)
  {
    SurvivorDecidesLiveness(t, surviving, merged, ident);
    EveryRowHasItsKey(t);
    if ident in Keys(t, surviving) {
      var r :| r in t && r.sat == surviving && r.key == ident;
      if r.data {
        assert r == Row(surviving, ident, true);
      } else {
        assert r == Row(surviving, ident, false);
      }
    } else {
      assert Row(surviving, ident, false) !in t;
    }
  }

  /** The loss on a concrete pair. */
  lemma LivenessLostExample()
    ensures var k := Ident("cospar", "2026-001A", "gcat");
      var t: Identifiers := {Row(1, k, false), Row(2, k, true)};
      Live(t, 2, k) && !Live(Fold(t, 1, 2), 1, k)
  {
    var k := Ident("cospar", "2026-001A", "gcat");
    var t: Identifiers := {Row(1, k, false), Row(2, k, true)};
    assert Unique(t);
    assert Row(1, k, false) in t;
    LivenessLostIff(t, 1, 2, k);
  }

  // ----- link ---------------------------------------------------------------------------

  /** The crosswalk after `link`: insert the key, or bring an expired row of it back. */
  function Linked(t: Identifiers, sat: SatId, ident: Ident): Identifiers {
    t - {Row(sat, ident, false)} + {Row(sat, ident, true)}
  }

  /** `link` makes its key current on its satellite, keeps the table's key, and touches nothing
      else. */
  lemma LinkMakesCurrent(t: Identifiers, sat: SatId, ident: Ident)
    requires Unique(t)
    ensures Unique(Linked(t, sat, ident)) && Live(Linked(t, sat, ident), sat, ident)
    ensures forall r: Row<Ident, bool> :: r.sat != sat || r.key != ident ==> (r in Linked(t, sat, ident) <==> r in t)
    ensures Linked(Linked(t, sat, ident), sat, ident) == Linked(t, sat, ident)
    ensures Live(t, sat, ident) ==> Linked(t, sat, ident) == t
  {
    assert forall r :: r in Linked(t, sat, ident) && r.sat == sat && r.key == ident ==> r.data;
  }

  // ----- the whole database -------------------------------------------------------------

  ghost predicate GoldUnique(cases: set<GoldCase>) {
    forall a, b | a in cases && b in cases
      && a.caseType == b.caseType && a.subjectRef == b.subjectRef :: a == b
  }

  ghost predicate GoldReferences(cases: set<GoldCase>, sats: set<SatId>) {
    forall g :: g in cases && g.sat.Some? ==> g.sat.value in sats
  }

  /** Every uniqueness key and every foreign key of the seven child tables. */
  ghost predicate Integrity(db: Db) {
    && Unique(db.identifiers) && References(db.identifiers, db.sats.Keys)
    && Unique(db.statuses) && References(db.statuses, db.sats.Keys)
    && Unique(db.operators) && References(db.operators, db.sats.Keys)
    && Unique(db.buses) && References(db.buses, db.sats.Keys)
    && GoldUnique(db.goldCases) && GoldReferences(db.goldCases, db.sats.Keys)
    && Unique(db.authorizations) && References(db.authorizations, db.sats.Keys)
    && Unique(db.credits) && References(db.credits, db.sats.Keys)
  }

  function RepointGold(cases: set<GoldCase>, from: SatId, to: SatId): set<GoldCase> {
    set g | g in cases :: Repointed(g, from, to)
  }

  function Repointed(g: GoldCase, from: SatId, to: SatId): GoldCase {
    if g.sat == Some(from) then g.(sat := Some(to)) else g
  }

  /** Some child row still references the satellite. */
  predicate Referenced(db: Db, sat: SatId) {
    || Keys(db.identifiers, sat) != {} || Keys(db.statuses, sat) != {}
    || Keys(db.operators, sat) != {} || Keys(db.buses, sat) != {}
    || (exists g :: g in db.goldCases && g.sat == Some(sat))
    || Keys(db.authorizations, sat) != {} || Keys(db.credits, sat) != {}
  }

  function FoldDb(db: Db, surviving: SatId, merged: SatId, rule: string): Db {
    Db(db.sats - {merged},
       Fold(db.identifiers, surviving, merged),
       Fold(db.statuses, surviving, merged),
       Fold(db.operators, surviving, merged),
       Fold(db.buses, surviving, merged),
       RepointGold(db.goldCases, merged, surviving),
       Fold(db.authorizations, surviving, merged),
       Fold(db.credits, surviving, merged),
       db.log + [LogEntry(surviving, merged, rule)],
       db.events)
  }

  datatype MergeOutcome = Merged | SameSatellite | ForeignKeyViolated

  /** `merge`, as one change of the whole database. A survivor that does not exist fails the
      foreign key of the first row repointed to it, and the transaction is lost. */
  function MergeDb(db: Db, surviving: SatId, merged: SatId, rule: string): (Db, MergeOutcome) {
    if surviving == merged then (db, SameSatellite)
    else if surviving !in db.sats && Referenced(db, merged) then (db, ForeignKeyViolated)
    else (FoldDb(db, surviving, merged, rule), Merged)
  }

  lemma GoldFollows(cases: set<GoldCase>, surviving: SatId, merged: SatId, sats: set<SatId>)
    requires GoldUnique(cases) && GoldReferences(cases, sats) && surviving != merged
    requires surviving in sats || forall g :: g in cases ==> g.sat != Some(merged)
    ensures GoldUnique(RepointGold(cases, merged, surviving))
    ensures GoldReferences(RepointGold(cases, merged, surviving), sats - {merged})
  {
  }

  /** A merge preserves the integrity of the whole database, leaves no row referencing the deleted
      satellite, and writes exactly one log row and one satellite deletion. */
  lemma MergePreservesIntegrity(db: Db, surviving: SatId, merged: SatId, rule: string)
    requires Integrity(db) && MergeDb(db, surviving, merged, rule).1.Merged?
    ensures var after := MergeDb(db, surviving, merged, rule).0;
      && Integrity(after)
      && !Referenced(after, merged)
      && after.sats == db.sats - {merged}
      && after.log == db.log + [LogEntry(surviving, merged, rule)]
  {
    var sats := db.sats.Keys;
    var after := MergeDb(db, surviving, merged, rule).0;
    assert after.sats.Keys == sats - {merged};
    FoldConserves(db.identifiers, surviving, merged, sats);
    FoldConserves(db.statuses, surviving, merged, sats);
    FoldConserves(db.operators, surviving, merged, sats);
    FoldConserves(db.buses, surviving, merged, sats);
    FoldConserves(db.authorizations, surviving, merged, sats);
    FoldConserves(db.credits, surviving, merged, sats);
    GoldFollows(db.goldCases, surviving, merged, sats);
  }

  /** A child table across a merge: the survivor's rows and, under keys it lacks, the merged side's with
      their data; nothing on the merged side, and the rest as before. */
  ghost predicate Conserved<K(!new), D(!new)>(t: set<Row<K, D>>, u: set<Row<K, D>>, surviving: SatId, merged: SatId) {
    && Keys(u, surviving) == Keys(t, surviving) + Keys(t, merged)
    && Keys(u, merged) == {}
    && (forall r :: r in t && r.sat == surviving ==> r in u)
    && (forall r :: r in t && r.sat == merged && r.key !in Keys(t, surviving) ==> Row(surviving, r.key, r.data) in u)
    && (forall r: Row<K, D> :: r.sat != surviving && r.sat != merged ==> (r in u <==> r in t))
  }

  /** A merge loses nothing of the merged satellite but what the survivor has under the same key, in any
      table, and its labelled cases all end on the survivor. */
  lemma MergeConserves(db: Db, surviving: SatId, merged: SatId, rule: string)
    requires Integrity(db) && MergeDb(db, surviving, merged, rule).1.Merged?
    ensures var after := MergeDb(db, surviving, merged, rule).0;
      && Conserved(db.identifiers, after.identifiers, surviving, merged)
      && Conserved(db.statuses, after.statuses, surviving, merged)
      && Conserved(db.operators, after.operators, surviving, merged)
      && Conserved(db.buses, after.buses, surviving, merged)
      && Conserved(db.authorizations, after.authorizations, surviving, merged)
      && Conserved(db.credits, after.credits, surviving, merged)
      && (forall g :: g in db.goldCases ==>
        GoldCase(g.caseType, g.subjectRef, if g.sat == Some(merged) then Some(surviving) else g.sat) in after.goldCases)
      && (forall g :: g in after.goldCases ==> g.sat != Some(merged))
      && |after.goldCases| == |db.goldCases|
      && after.events == db.events
  {
    var sats := db.sats.Keys;
    FoldConserves(db.identifiers, surviving, merged, sats);
    FoldConserves(db.statuses, surviving, merged, sats);
    FoldConserves(db.operators, surviving, merged, sats);
    FoldConserves(db.buses, surviving, merged, sats);
    FoldConserves(db.authorizations, surviving, merged, sats);
    FoldConserves(db.credits, surviving, merged, sats);
    CasesFollow(db.goldCases, surviving, merged);
  }

  lemma {:induction false} CasesFollow(cases: set<GoldCase>, surviving: SatId, merged: SatId)
    requires GoldUnique(cases) && surviving != merged
    ensures forall g :: g in cases ==>
      GoldCase(g.caseType, g.subjectRef, if g.sat == Some(merged) then Some(surviving) else g.sat)
        in RepointGold(cases, merged, surviving)
    ensures forall g :: g in RepointGold(cases, merged, surviving) ==> g.sat != Some(merged)
    ensures |RepointGold(cases, merged, surviving)| == |cases|
  {
    MovedCases(cases, surviving, merged);
    NoCaseLeft(cases, surviving, merged);
    RepointCount(cases, surviving, merged);
  }

  lemma {:induction false} NoCaseLeft(cases: set<GoldCase>, surviving: SatId, merged: SatId)
    requires surviving != merged
    ensures forall g :: g in RepointGold(cases, merged, surviving) ==> g.sat != Some(merged)
  {
    forall h | h in cases ensures Repointed(h, merged, surviving).sat != Some(merged) {
    }
  }

  lemma {:induction false} MovedCases(cases: set<GoldCase>, surviving: SatId, merged: SatId)
    ensures forall g :: g in cases ==>
      GoldCase(g.caseType, g.subjectRef, if g.sat == Some(merged) then Some(surviving) else g.sat)
        in RepointGold(cases, merged, surviving)
  {
    forall g | g in cases
      ensures GoldCase(g.caseType, g.subjectRef, if g.sat == Some(merged) then Some(surviving) else g.sat)
        in RepointGold(cases, merged, surviving)
    {
      assert Repointed(g, merged, surviving) in RepointGold(cases, merged, surviving);
    }
  }

  lemma {:induction false} RepointCount(cases: set<GoldCase>, surviving: SatId, merged: SatId)
    requires GoldUnique(cases)
    ensures |RepointGold(cases, merged, surviving)| == |cases|
  {
    if cases != {} {
      var g :| g in cases;
      var rest := cases - {g};
      RepointCount(rest, surviving, merged);
      assert RepointGold(cases, merged, surviving)
        == RepointGold(rest, merged, surviving) + {Repointed(g, merged, surviving)};
      RepointApart(rest, g, surviving, merged);
    }
  }

  lemma RepointApart(cases: set<GoldCase>, g: GoldCase, surviving: SatId, merged: SatId)
    requires GoldUnique(cases + {g}) && g !in cases
    ensures Repointed(g, merged, surviving) !in RepointGold(cases, merged, surviving)
  {
    forall h | h in cases
      ensures Repointed(h, merged, surviving) != Repointed(g, merged, surviving)
    {
      assert h in cases + {g} && g in cases + {g};
    }
  }

  /** A merge that is refused or fails leaves the database as it was. */
  lemma FailedMergeChangesNothing(db: Db, surviving: SatId, merged: SatId, rule: string)
    ensures !MergeDb(db, surviving, merged, rule).1.Merged? ==> MergeDb(db, surviving, merged, rule).0 == db
    ensures MergeDb(db, surviving, merged, rule).1.Merged? <==>
      surviving != merged && (surviving in db.sats || !Referenced(db, merged))
  {
  }

  /** The two statements `merge` runs on a child table. */
  method FoldTable<K(!new,==), D(!new,==)>(t: set<Row<K, D>>, surviving: SatId, merged: SatId)
    returns (folded: set<Row<K, D>>)
    requires surviving != merged
    ensures folded == Fold(t, surviving, merged)
  {
    DeleteMakesRoom(t, surviving, merged);
    var left := t - Colliding(t, surviving, merged);
    assert !Clashes(left, merged, surviving);
    folded := Repoint(left, merged, surviving);
  }

  /** The tables, changed in place statement by statement. */
  class GraphStore {
    var sats: map<SatId, Satellite>
    var identifiers: Identifiers
    var statuses: set<Row<(int, string), string>>
    var operators: set<Row<(int, string, int), string>>
    var buses: set<Row<(), string>>
    var goldCases: set<GoldCase>
    var authorizations: set<Row<(string, string), string>>
    var credits: set<Row<string, string>>
    var log: seq<LogEntry>
    var events: seq<Event>
    var nextId: SatId        // the identity sequence of satellite

    function Contents(): Db
      reads this
    {
      Db(sats, identifiers, statuses, operators, buses, goldCases, authorizations, credits, log, events)
    }

    constructor (db: Db, nextId: SatId)
      ensures Contents() == db && this.nextId == nextId
    {
      this.nextId := nextId;
      sats, identifiers, statuses, operators := db.sats, db.identifiers, db.statuses, db.operators;
      buses, goldCases, authorizations := db.buses, db.goldCases, db.authorizations;
      credits, log, events := db.credits, db.log, db.events;
    }

    /** `link`: true when the identifier row is new. A new row is current unless the caller gives it an
        end date; a row that is there is made current whatever the caller gives. Exactly the new rows are
        logged, and exactly the revived ones leave an event. */
    method Link(sat: SatId, ident: Ident, current: bool, rule: string) returns (created: bool)
      requires sat in sats && Unique(identifiers)
      modifies this`identifiers, this`log, this`events
      ensures created ==> identifiers == old(identifiers) + {Row(sat, ident, current)}
      ensures !created || current ==> identifiers == Linked(old(identifiers), sat, ident)
      ensures Unique(identifiers)
      ensures created <==> ident !in Keys(old(identifiers), sat)
      ensures log == old(log) + (if created then [LogEntry(sat, sat, rule)] else [])
      ensures events == old(events)
        + (if Row(sat, ident, false) in old(identifiers) then [Event(sat, Revived)] else [])
    {
      LinkMakesCurrent(identifiers, sat, ident);
      if ident !in Keys(identifiers, sat) {
        EveryRowHasItsKey(identifiers);
        identifiers := identifiers + {Row(sat, ident, current)};
        log := log + [LogEntry(sat, sat, rule)];
        return true;
      }
      if Row(sat, ident, false) in identifiers {
        identifiers := identifiers - {Row(sat, ident, false)} + {Row(sat, ident, true)};
        events := events + [Event(sat, Revived)];
      }
      created := false;
    }

    method FoldIdentity(surviving: SatId, merged: SatId)
      requires surviving != merged
      modifies this`identifiers, this`statuses, this`operators
      ensures identifiers == Fold(old(identifiers), surviving, merged)
      ensures statuses == Fold(old(statuses), surviving, merged)
      ensures operators == Fold(old(operators), surviving, merged)
    {
      identifiers := FoldTable(identifiers, surviving, merged);
      statuses := FoldTable(statuses, surviving, merged);
      operators := FoldTable(operators, surviving, merged);
    }

    method FoldDerived(surviving: SatId, merged: SatId)
      requires surviving != merged
      modifies this`buses, this`goldCases, this`authorizations, this`credits
      ensures buses == Fold(old(buses), surviving, merged)
      ensures goldCases == RepointGold(old(goldCases), merged, surviving)
      ensures authorizations == Fold(old(authorizations), surviving, merged)
      ensures credits == Fold(old(credits), surviving, merged)
    {
      buses := FoldTable(buses, surviving, merged);
      goldCases := RepointGold(goldCases, merged, surviving);
      authorizations := FoldTable(authorizations, surviving, merged);
      credits := FoldTable(credits, surviving, merged);
    }

    /** Every child table in turn, then the log, then the shell itself. */
    method FoldAll(surviving: SatId, merged: SatId, rule: string)
      requires surviving != merged
      modifies this
      ensures Contents() == FoldDb(old(Contents()), surviving, merged, rule)
    {
      FoldIdentity(surviving, merged);
      FoldDerived(surviving, merged);
      log := log + [LogEntry(surviving, merged, rule)];
      sats := sats - {merged};
    }

    /** `merge` */
    method Merge(surviving: SatId, merged: SatId, rule: string) returns (outcome: MergeOutcome)
      modifies this
      ensures (Contents(), outcome) == MergeDb(old(Contents()), surviving, merged, rule)
    {
      if surviving == merged {
        return SameSatellite;
      }
      if surviving !in sats && Referenced(Contents(), merged) {
        return ForeignKeyViolated;
      }
      FoldAll(surviving, merged, rule);
      outcome := Merged;
    }
  }
}
