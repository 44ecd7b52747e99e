/** The nightly GCAT links: the NORAD and key-number passes of identity/match.py and the two expiry
    passes of identity/churn.py, on the identity graph of `Graph`.

    Links are inserted, revived and retired by passes that know nothing of each other. Here: what each
    pass does to the tables, and that the claims of anchored rows are never undone. `GcatNights` puts
    the passes together. */
module GcatLinks {
  import opened Wrappers
  import opened Graph

  /** A row of the newest snapshot. `number` is the catalog number in the key (S<n>), `cospar` the
      normalized piece and `standard` whether it matched the modern grammar. */
  datatype GcatRow = GcatRow(jcat: string, norad: Option<int>, number: Option<int>,
                             cospar: Option<string>, standard: bool, name: Option<string>, launch: Option<int>)

  datatype Link = Link(sat: SatId, ident: Ident)

  function GcatId(row: GcatRow): Ident { Ident("gcat_id", row.jcat, "gcat") }

  function Cospar(value: string): Ident { Ident("cospar", value, "gcat") }

  /** The catalog number a row anchors to: its NORAD, or its key's own number. */
  function Number(row: GcatRow): Option<int> {
    if row.norad.Some? then row.norad else row.number
  }

  /** satellite.norad_id is unique. */
  ghost predicate NoradUnique(sats: map<SatId, Satellite>) {
    forall a, b | a in sats && b in sats && sats[a].norad.Some? && sats[a].norad == sats[b].norad :: a == b
  }

  function WithNorad(sats: map<SatId, Satellite>, number: Option<int>): set<SatId> {
    set s | s in sats && sats[s].norad.Some? && sats[s].norad == number
  }

  ghost predicate Anchored(sats: map<SatId, Satellite>, row: GcatRow) {
    exists s :: s in WithNorad(sats, Number(row))
  }

  // ----- what the passes claim ----------------------------------------------------------

  /** The identifiers the passes link for an anchored row: the NORAD pass takes any normalized
      piece and the name, the key-number pass only a standard piece. */
  function Idents(row: GcatRow): set<Ident> {
    {GcatId(row)}
    + (if row.cospar.Some? && (row.norad.Some? || row.standard) then {Cospar(row.cospar.value)} else {})
    + (if row.name.Some? && row.norad.Some? then {Ident("name_gcat", row.name.value, "gcat")} else {})
  }

  function Claims(sats: map<SatId, Satellite>, rows: seq<GcatRow>): set<Link> {
    set row, s, i | row in rows && s in WithNorad(sats, Number(row)) && i in Idents(row) :: Link(s, i)
  }

  /** Insert what is missing and revive what is expired. */
  function LinkAll(t: Identifiers, claims: set<Link>): Identifiers {
    (set r | r in t && Link(r.sat, r.key) !in claims) + (set c | c in claims :: Row(c.sat, c.ident, true))
  }

  lemma LinkAllMember(t: Identifiers, claims: set<Link>, sat: SatId, ident: Ident, live: bool)
    ensures Row(sat, ident, live) in LinkAll(t, claims) <==>
      if Link(sat, ident) in claims then live else Row(sat, ident, live) in t
  {
    var r := Row(sat, ident, live);
    if Link(sat, ident) in claims {
      assert Row(sat, ident, true) in LinkAll(t, claims);
    }
  }

  lemma LinkAllUnique(t: Identifiers, claims: set<Link>)
    requires Unique(t)
    ensures Unique(LinkAll(t, claims))
  {
  }

  lemma LinkAllTwice(t: Identifiers, a: set<Link>, b: set<Link>)
    ensures LinkAll(LinkAll(t, a), b) == LinkAll(t, a + b)
  {
    forall r: Row<Ident, bool> ensures r in LinkAll(LinkAll(t, a), b) <==> r in LinkAll(t, a + b) {
      var c := Link(r.sat, r.key);
      assert r == Row(c.sat, c.ident, r.data);
      LinkAllMember(t, a, r.sat, r.key, r.data);
      LinkAllMember(LinkAll(t, a), b, r.sat, r.key, r.data);
      LinkAllMember(t, a + b, r.sat, r.key, r.data);
    }
  }

  lemma LinkedIsLinkAll(t: Identifiers, sat: SatId, ident: Ident)
    requires Unique(t)
    ensures Linked(t, sat, ident) == LinkAll(t, {Link(sat, ident)})
  {
    forall r: Row<Ident, bool>
      ensures r in Linked(t, sat, ident) <==> r in LinkAll(t, {Link(sat, ident)})
    {
      assert r == Row(r.sat, r.key, r.data);
      LinkAllMember(t, {Link(sat, ident)}, r.sat, r.key, r.data);
      if r.data {
        assert r == Row(r.sat, r.key, true);
      } else {
        assert r == Row(r.sat, r.key, false);
      }
    }
  }

  // ----- retiring moved keys ------------------------------------------------------------

  /** The satellites the snapshot anchors a gcat_id or cospar key to. */
  function KeyAnchors(sats: map<SatId, Satellite>, rows: seq<GcatRow>, ident: Ident): set<SatId> {
    set row, s | row in rows && s in WithNorad(sats, Number(row))
      && (ident == GcatId(row) || (row.cospar.Some? && ident == Cospar(row.cospar.value))) :: s
  }

  /** A current gcat link that sits off its key's only anchor, while the anchor holds the key. */
  predicate Moved(t: Identifiers, anchors: set<SatId>, r: Row<Ident, bool>) {
    && r in t && r.data && r.key.source == "gcat"
    && |anchors| == 1 && r.sat !in anchors
    && exists a :: a in anchors && Live(t, a, r.key)
  }

  function Retire(t: Identifiers, victims: Identifiers): Identifiers {
    (t - victims) + set r | r in victims :: Row(r.sat, r.key, false)
  }

  function MovedKeys(t: Identifiers, sats: map<SatId, Satellite>, rows: seq<GcatRow>): Identifiers {
    set r | r in t && Moved(t, KeyAnchors(sats, rows, r.key), r)
  }

  /** The satellites a key is anchored to, read off the rows: the one whose NORAD the row carries or,
      when it carries none, the one whose NORAD is the key's own number; under the row's key and its
      normalised piece. */
  ghost predicate AnchoredBy(sats: map<SatId, Satellite>, row: GcatRow, ident: Ident, n: SatId) {
    && n in sats && sats[n].norad.Some?
    && (if row.norad.Some? then row.norad == sats[n].norad else row.number == sats[n].norad)
    && (ident == Ident("gcat_id", row.jcat, "gcat")
        || (row.cospar.Some? && ident == Ident("cospar", row.cospar.value, "gcat")))
  }

  ghost predicate HasAnchor(sats: map<SatId, Satellite>, rows: seq<GcatRow>, ident: Ident, n: SatId) {
    exists row :: row in rows && AnchoredBy(sats, row, ident, n)
  }

  ghost predicate OnlyAnchor(sats: map<SatId, Satellite>, rows: seq<GcatRow>, ident: Ident, a: SatId) {
    HasAnchor(sats, rows, ident, a) && forall n :: HasAnchor(sats, rows, ident, n) ==> n == a
  }

  lemma AnchorsAre(sats: map<SatId, Satellite>, rows: seq<GcatRow>, ident: Ident, n: SatId)
    ensures n in KeyAnchors(sats, rows, ident) <==> HasAnchor(sats, rows, ident, n)
  {
    if n in KeyAnchors(sats, rows, ident) {
      var row :| row in rows && n in WithNorad(sats, Number(row))
        && (ident == GcatId(row) || (row.cospar.Some? && ident == Cospar(row.cospar.value)));
      assert AnchoredBy(sats, row, ident, n);
    }
    if HasAnchor(sats, rows, ident, n) {
      var row :| row in rows && AnchoredBy(sats, row, ident, n);
      assert n in WithNorad(sats, Number(row));
    }
  }

  /** Which links the moved-key pass retires: the current gcat ones off the key's only anchor, while that
      anchor holds the key. */
  lemma MovedIff(t: Identifiers, sats: map<SatId, Satellite>, rows: seq<GcatRow>, sat: SatId, ident: Ident)
    ensures Row(sat, ident, true) in MovedKeys(t, sats, rows) <==>
      && Row(sat, ident, true) in t && ident.source == "gcat"
      && exists a :: a != sat && Row(a, ident, true) in t && OnlyAnchor(sats, rows, ident, a)
  {
    var anchors := KeyAnchors(sats, rows, ident);
    forall n ensures n in anchors <==> HasAnchor(sats, rows, ident, n) { AnchorsAre(sats, rows, ident, n); }
    if Row(sat, ident, true) in MovedKeys(t, sats, rows) {
      var a :| a in anchors && Live(t, a, ident);
      OneMember(anchors, a);
      assert OnlyAnchor(sats, rows, ident, a);
    }
    if exists a :: a != sat && Row(a, ident, true) in t && OnlyAnchor(sats, rows, ident, a) {
      var a :| a != sat && Row(a, ident, true) in t && OnlyAnchor(sats, rows, ident, a);
      assert anchors == {a};
      assert Live(t, a, ident);
    }
  }

  lemma OneMember(s: set<SatId>, a: SatId)
    requires |s| == 1 && a in s
    ensures forall n :: n in s <==> n == a
  {
    var rest := s - {a};
    assert |rest| == 0;
    forall n ensures n in s <==> n in rest || n == a { }
  }

  lemma RetireMember(t: Identifiers, victims: Identifiers, sat: SatId, ident: Ident, live: bool)
    requires Unique(t) && victims <= t && forall r :: r in victims ==> r.data
    ensures Row(sat, ident, live) in Retire(t, victims) <==>
      if Row(sat, ident, true) in victims then !live else Row(sat, ident, live) in t
  {
    var r := Row(sat, ident, true);
    if r in victims {
      assert Row(sat, ident, false) in Retire(t, victims);
    }
    forall v | v in victims ensures v == Row(v.sat, v.key, true) {
      assert v == Row(v.sat, v.key, v.data);
    }
  }

  /** No key loses its last current gcat link to the moved-key pass, on any database. */
  lemma NoKeyLosesItsLastLink(t: Identifiers, sats: map<SatId, Satellite>, rows: seq<GcatRow>,
                              sat: SatId, ident: Ident) returns (holder: SatId)
    requires Unique(t) && Live(t, sat, ident)
    ensures Live(Retire(t, MovedKeys(t, sats, rows)), holder, ident)
  {
    var victims := MovedKeys(t, sats, rows);
    holder := sat;
    if Row(sat, ident, true) in victims {
      var a :| a in KeyAnchors(sats, rows, ident) && Live(t, a, ident);
      holder := a;
    }
    RetireMember(t, victims, holder, ident, true);
  }

  // ----- one night ----------------------------------------------------------------------

  /** The crosswalk after the link passes and the moved-key pass, once the satellites exist. */
  function Night(t: Identifiers, sats: map<SatId, Satellite>, rows: seq<GcatRow>): Identifiers {
    var linked := LinkAll(t, Claims(sats, rows));
    Retire(linked, MovedKeys(linked, sats, rows))
  }

  /** The two passes do not undo each other: no link that a row claims is ever retired as moved. */
  lemma ClaimsAreNotMoved(t: Identifiers, sats: map<SatId, Satellite>, rows: seq<GcatRow>, c: Link)
    requires c in Claims(sats, rows)
    ensures Row(c.sat, c.ident, true) !in MovedKeys(t, sats, rows)
  {
    var row, s, i :| row in rows && s in WithNorad(sats, Number(row)) && i in Idents(row) && c == Link(s, i);
    if row.name.Some? && i == Ident("name_gcat", row.name.value, "gcat") {
      assert "name_gcat"[0] == 'n' && "gcat_id"[0] == 'g' && "cospar"[0] == 'c';
      assert KeyAnchors(sats, rows, i) == {};
    } else {
      assert s in KeyAnchors(sats, rows, i);
    }
  }

  lemma NightUnique(t: Identifiers, sats: map<SatId, Satellite>, rows: seq<GcatRow>)
    requires Unique(t)
    ensures Unique(LinkAll(t, Claims(sats, rows))) && Unique(Night(t, sats, rows))
  {
    var linked := LinkAll(t, Claims(sats, rows));
    LinkAllUnique(t, Claims(sats, rows));
    var victims := MovedKeys(linked, sats, rows);
    forall a, b | a in Retire(linked, victims) && b in Retire(linked, victims)
      && a.sat == b.sat && a.key == b.key ensures a == b
    {
      assert a == Row(a.sat, a.key, a.data) && b == Row(b.sat, b.key, b.data);
      RetireMember(linked, victims, a.sat, a.key, a.data);
      RetireMember(linked, victims, b.sat, b.key, b.data);
    }
  }

  /** After a night every claimed link is current. */
  lemma ClaimsHold(t: Identifiers, sats: map<SatId, Satellite>, rows: seq<GcatRow>, c: Link)
    requires Unique(t) && c in Claims(sats, rows)
    ensures Live(Night(t, sats, rows), c.sat, c.ident)
  {
    var linked := LinkAll(t, Claims(sats, rows));
    NightUnique(t, sats, rows);
    LinkAllMember(t, Claims(sats, rows), c.sat, c.ident, true);
    ClaimsAreNotMoved(linked, sats, rows, c);
    RetireMember(linked, MovedKeys(linked, sats, rows), c.sat, c.ident, true);
  }

  lemma LinkAllLiveIsNothing(t: Identifiers, claims: set<Link>)
    requires Unique(t) && forall c :: c in claims ==> Live(t, c.sat, c.ident)
    ensures LinkAll(t, claims) == t
  {
    forall r: Row<Ident, bool> ensures r in LinkAll(t, claims) <==> r in t {
      assert r == Row(r.sat, r.key, r.data);
      LinkAllMember(t, claims, r.sat, r.key, r.data);
      if Link(r.sat, r.key) in claims {
        var c := Link(r.sat, r.key);
        assert Live(t, c.sat, c.ident);
        if r.data { assert r == Row(c.sat, c.ident, true); }
      }
    }
  }

  /** After the moved-key pass there is nothing left for it to do. */
  lemma NothingMovedTwice(t: Identifiers, sats: map<SatId, Satellite>, rows: seq<GcatRow>)
    requires Unique(t)
    ensures MovedKeys(Retire(t, MovedKeys(t, sats, rows)), sats, rows) == {}
  {
    var victims := MovedKeys(t, sats, rows);
    var after := Retire(t, victims);
    forall r | r in after ensures !Moved(after, KeyAnchors(sats, rows, r.key), r) {
      assert r == Row(r.sat, r.key, r.data);
      var anchors := KeyAnchors(sats, rows, r.key);
      forall a ensures Live(after, a, r.key) ==> Live(t, a, r.key) {
        RetireMember(t, victims, a, r.key, true);
      }
      if r.data {
        assert r == Row(r.sat, r.key, true);
        RetireMember(t, victims, r.sat, r.key, true);
        assert r in t && !Moved(t, anchors, r);
      }
    }
  }

  /** The fixpoint: a second night on the same snapshot and satellites changes no link. */
  lemma NightIsFixpoint(t: Identifiers, sats: map<SatId, Satellite>, rows: seq<GcatRow>)
    requires Unique(t)
    ensures Night(Night(t, sats, rows), sats, rows) == Night(t, sats, rows)
  {
    var once := Night(t, sats, rows);
    NightUnique(t, sats, rows);
    forall c | c in Claims(sats, rows) ensures Live(once, c.sat, c.ident) {
      ClaimsHold(t, sats, rows, c);
    }
    LinkAllLiveIsNothing(once, Claims(sats, rows));
    NothingMovedTwice(LinkAll(t, Claims(sats, rows)), sats, rows);
  }

  /** A key that the snapshot anchors to one satellite ends the night with that satellite as its only
      current gcat holder exactly when a row's link pass claims it there or the satellite held it
      already. The anchor of a piece is read from every row, and its link only made by rows with a NORAD
      or a standard piece. */
  lemma OneAnchorOneHolderIff(t: Identifiers, sats: map<SatId, Satellite>, rows: seq<GcatRow>, ident: Ident,
                              a: SatId)
    requires Unique(t) && ident.source == "gcat" && KeyAnchors(sats, rows, ident) == {a}
    ensures (forall s :: Live(Night(t, sats, rows), s, ident) <==> s == a)
       <==> Link(a, ident) in Claims(sats, rows) || Live(t, a, ident)
  {
    var claims := Claims(sats, rows);
    var linked := LinkAll(t, claims);
    var victims := MovedKeys(linked, sats, rows);
    NightUnique(t, sats, rows);
    LinkAllMember(t, claims, a, ident, true);
    RetireMember(linked, victims, a, ident, true);
    assert |{a}| == 1;
    if Live(linked, a, ident) {
      forall s ensures Live(Night(t, sats, rows), s, ident) <==> s == a {
        RetireMember(linked, victims, s, ident, true);
        if s != a && Live(linked, s, ident) { assert Moved(linked, {a}, Row(s, ident, true)); }
      }
    } else {
      assert !Live(Night(t, sats, rows), a, ident);
    }
  }

  /** When the link pass claims an anchored key: always for a GCAT id, and for a piece when some row that
      anchors it there has a NORAD or a standard piece. */
  lemma AnchorClaimsIff(sats: map<SatId, Satellite>, rows: seq<GcatRow>, ident: Ident, a: SatId)
    requires a in KeyAnchors(sats, rows, ident)
    ensures Link(a, ident) in Claims(sats, rows) <==>
      exists row :: row in rows && a in WithNorad(sats, Number(row)) && MakesLink(row, ident)
    ensures ident.idType == "gcat_id" ==> Link(a, ident) in Claims(sats, rows)
  {
    var row :| row in rows && a in WithNorad(sats, Number(row))
      && (ident == GcatId(row) || (row.cospar.Some? && ident == Cospar(row.cospar.value)));
    assert "gcat_id"[0] == 'g' && "cospar"[0] == 'c' && "name_gcat"[0] == 'n';
    if ident == GcatId(row) { assert MakesLink(row, ident); }
    forall other | other in rows && a in WithNorad(sats, Number(other))
      ensures MakesLink(other, ident) <==> ident in Idents(other)
    {
    }
    if Link(a, ident) in Claims(sats, rows) {
      var other, s, i :| other in rows && s in WithNorad(sats, Number(other)) && i in Idents(other)
        && Link(a, ident) == Link(s, i);
      assert MakesLink(other, ident);
    }
  }

  predicate MakesLink(row: GcatRow, ident: Ident) {
    || ident == GcatId(row)
    || (row.cospar.Some? && (row.norad.Some? || row.standard) && ident == Cospar(row.cospar.value))
  }

  /** Where it fails: an S<n> row without a NORAD whose piece is not standard. Satellite 1 is the key's only
      anchor, and satellite 2 keeps it. */
  lemma NonStandardPieceStaysOff()
    ensures var row := GcatRow("S00005", None, Some(5), Some("1958 BET 2"), false, None, None);
      var sats := map[1 := Satellite(Some(5), None, "x"), 2 := Satellite(Some(6), None, "y")];
      var key := Cospar("1958 BET 2");
      var t: Identifiers := {Row(2, key, true)};
      && KeyAnchors(sats, [row], key) == {1}
      && Live(Night(t, sats, [row]), 2, key) && !Live(Night(t, sats, [row]), 1, key)
  {
    var row := GcatRow("S00005", None, Some(5), Some("1958 BET 2"), false, None, None);
    var sats := map[1 := Satellite(Some(5), None, "x"), 2 := Satellite(Some(6), None, "y")];
    var key := Cospar("1958 BET 2");
    var t: Identifiers := {Row(2, key, true)};
    NonStandardPieceStays(row, sats, key, t);
  }

  lemma NonStandardPieceStays(row: GcatRow, sats: map<SatId, Satellite>, key: Ident, t: Identifiers)
    requires row == GcatRow("S00005", None, Some(5), Some("1958 BET 2"), false, None, None)
    requires sats == map[1 := Satellite(Some(5), None, "x"), 2 := Satellite(Some(6), None, "y")]
    requires key == Cospar("1958 BET 2") && t == {Row(2, key, true)}
    ensures KeyAnchors(sats, [row], key) == {1}
    ensures Live(Night(t, sats, [row]), 2, key) && !Live(Night(t, sats, [row]), 1, key)
  {
    var rows := [row];
    var linked := LinkAll(t, Claims(sats, rows));
    var victims := MovedKeys(linked, sats, rows);
    assert row in rows && WithNorad(sats, Number(row)) == {1};
    assert "gcat_id"[0] == 'g' && "cospar"[0] == 'c';
    assert key !in Idents(row);
    NightUnique(t, sats, rows);
    forall s ensures Live(linked, s, key) <==> Live(t, s, key) {
      LinkAllMember(t, Claims(sats, rows), s, key, true);
    }
    RetireMember(linked, victims, 1, key, true);
    RetireMember(linked, victims, 2, key, true);
  }

  // ----- contested keys -----------------------------------------------------------------

  /** A current link of a volatile key that was seen to change hands, on a satellite without a
      permanent anchor. */
  predicate Contested(sats: map<SatId, Satellite>, churned: set<(string, string)>, r: Row<Ident, bool>) {
    && r.data && (r.key.idType == "gcat_id" || r.key.idType == "cospar")
    && (r.key.idType, r.key.value) in churned
    && r.sat in sats && sats[r.sat].norad.None?
  }

  function ContestedLinks(t: Identifiers, sats: map<SatId, Satellite>, churned: set<(string, string)>):
    Identifiers
  {
    set r | r in t && Contested(sats, churned, r)
  }

  // ----- rows without a NORAD -----------------------------------------------------------

  /** What the passes read and write: the satellites with the identity sequence, and the links. */
  datatype Crosswalk = Crosswalk(sats: map<SatId, Satellite>, links: Identifiers, nextId: SatId)

  ghost predicate Sound(w: Crosswalk) {
    && NoradUnique(w.sats)
    && Unique(w.links) && References(w.links, w.sats.Keys)
    && forall s :: s in w.sats ==> s < w.nextId
  }

  /** A piece that matches the modern grammar is there. */
  predicate PieceOk(row: GcatRow) { row.standard ==> row.cospar.Some? }

  /** The current holders of a COSPAR, from any source. */
  function Holders(t: Identifiers, value: string): set<SatId> {
    set r | r in t && r.key.idType == "cospar" && r.key.value == value && r.data :: r.sat
  }

  ghost function Lowest(s: set<SatId>): (low: SatId)
    requires s != {}
    ensures low in s && forall x :: x in s ==> low <= x
  {
    SomeMember(s);
    var x :| x in s;
    if s == {x} then x
    else
      var low := Lowest(s - {x});
      assert forall y :: y in s ==> y == x || y in s - {x};
      if low < x then low else x
  }

  function LinksTo(row: GcatRow, sat: SatId): set<Link> {
    set i | i in Idents(row) :: Link(sat, i)
  }

  function NameOr(row: GcatRow, other: string): string {
    if row.name.Some? && row.name.value != "" then row.name.value else other
  }

  function NewSatellite(row: GcatRow): Satellite
    requires row.cospar.Some?
  {
    Satellite(None, row.launch, NameOr(row, row.cospar.value))
  }

  /** A row whose number reaches no satellite: its piece decides, and creates a satellite when nobody
      holds it; a row without a standard piece is left to the probabilistic pass. */
  ghost function LinkRow(w: Crosswalk, row: GcatRow): Crosswalk
    requires PieceOk(row)
  {
    if !row.standard then w
    else
      var held := Holders(w.links, row.cospar.value);
      if held != {} then w.(links := LinkAll(w.links, LinksTo(row, Lowest(held))))
      else Crosswalk(w.sats[w.nextId := NewSatellite(row)], LinkAll(w.links, LinksTo(row, w.nextId)),
                     w.nextId + 1)
  }

  /** One row of `_cospar_pass`: the key's own number first, then the piece. */
  ghost function CosparStep(w: Crosswalk, row: GcatRow): Crosswalk
    requires PieceOk(row)
  {
    if Anchored(w.sats, row) then w.(links := LinkAll(w.links, Claims(w.sats, [row])))
    else LinkRow(w, row)
  }

  ghost function CosparAll(w: Crosswalk, rows: seq<GcatRow>): Crosswalk
    requires forall row :: row in rows ==> PieceOk(row)
  {
    if rows == [] then w
    else CosparStep(CosparAll(w, rows[..|rows| - 1]), rows[|rows| - 1])
  }

  lemma LinkAllReferences(t: Identifiers, links: set<Link>, sats: set<SatId>)
    requires References(t, sats) && forall c :: c in links ==> c.sat in sats
    ensures References(LinkAll(t, links), sats)
  {
  }

  lemma HoldersExist(w: Crosswalk, value: string)
    requires Sound(w)
    ensures Holders(w.links, value) <= w.sats.Keys
  {
  }

  lemma CosparStepSound(w: Crosswalk, row: GcatRow)
    requires Sound(w) && PieceOk(row)
    ensures Sound(CosparStep(w, row)) && Grows(w.sats, CosparStep(w, row).sats)
    ensures forall s :: s in CosparStep(w, row).sats && s !in w.sats ==> CosparStep(w, row).sats[s].norad.None?
  {
    if Anchored(w.sats, row) {
      LinkAllUnique(w.links, Claims(w.sats, [row]));
      LinkAllReferences(w.links, Claims(w.sats, [row]), w.sats.Keys);
    } else if row.standard {
      var held := Holders(w.links, row.cospar.value);
      HoldersExist(w, row.cospar.value);
      var sat := if held != {} then Lowest(held) else w.nextId;
      LinkAllUnique(w.links, LinksTo(row, sat));
      LinkAllReferences(w.links, LinksTo(row, sat), w.sats.Keys + {sat});
    }
  }

  lemma {:induction false} CosparAllSound(w: Crosswalk, rows: seq<GcatRow>)
    requires Sound(w) && forall row :: row in rows ==> PieceOk(row)
    ensures Sound(CosparAll(w, rows)) && Grows(w.sats, CosparAll(w, rows).sats)
    ensures forall s :: s in CosparAll(w, rows).sats && s !in w.sats ==>
      CosparAll(w, rows).sats[s].norad.None?
  {
    if rows != [] {
      CosparAllSound(w, rows[..|rows| - 1]);
      CosparStepSound(CosparAll(w, rows[..|rows| - 1]), rows[|rows| - 1]);
    }
  }

  /** New satellites carry no NORAD, so they anchor nothing. */
  lemma AnchoredAsBefore(a: map<SatId, Satellite>, b: map<SatId, Satellite>, row: GcatRow)
    requires Grows(a, b) && forall s :: s in b && s !in a ==> b[s].norad.None?
    ensures WithNorad(b, Number(row)) == WithNorad(a, Number(row))
    ensures Anchored(b, row) <==> Anchored(a, row)
  {
    forall s ensures s in WithNorad(b, Number(row)) <==> s in WithNorad(a, Number(row)) { }
  }

  // ----- the passes on the store --------------------------------------------------------

  function World(store: GraphStore): Crosswalk
    reads store
  {
    Crosswalk(store.sats, store.identifiers, store.nextId)
  }

  ghost predicate Grows(before: map<SatId, Satellite>, after: map<SatId, Satellite>) {
    forall s :: s in before ==> s in after && after[s] == before[s]
  }

  method CreateSatellite(store: GraphStore, norad: Option<int>, launch: Option<int>, name: string)
    returns (id: SatId)
    requires Sound(World(store))
    requires norad.Some? ==> forall s :: s in store.sats ==> store.sats[s].norad != norad
    modifies store`sats, store`nextId
    ensures Sound(World(store))
    ensures id == old(store.nextId) && id !in old(store.sats) && store.nextId == id + 1
    ensures store.sats == old(store.sats)[id := Satellite(norad, launch, name)]
  {
    id := store.nextId;
    store.nextId := store.nextId + 1;
    store.sats := store.sats[id := Satellite(norad, launch, name)];
  }

  const DIGITS := "0123456789"

  function Decimal(n: int): string
    decreases if n < 0 then 1 - n else n
  {
    if n < 0 then "-" + Decimal(-n)
    else if n < 10 then [DIGITS[n]]
    else Decimal(n / 10) + [DIGITS[n % 10]]
  }

  /** Decimal digits, the highest first. */
  lemma DecimalIs(n: int, d: int)
    requires n > 0 && 0 <= d < 10
    ensures Decimal(d) == [DIGITS[d]] && Decimal(10 * n + d) == Decimal(n) + [DIGITS[d]]
    ensures Decimal(-n) == "-" + Decimal(n)
  {
    assert (10 * n + d) / 10 == n && (10 * n + d) % 10 == d;
  }

  /** The satellite is as a row of the snapshot gives it, named after its NORAD when the row has no name. */
  ghost predicate FromRow(rows: seq<GcatRow>, sat: Satellite) {
    exists row :: row in rows && row.norad.Some? && sat.norad == row.norad && sat.launch == row.launch
      && sat.name == match row.name case Some(name) => name case None => Decimal(row.norad.value)
  }

  /** `_bulk_upsert_satellites_by_norad`: one satellite for every NORAD of the snapshot, and none for
      a NORAD that has one. */
  method BulkUpsert(store: GraphStore, rows: seq<GcatRow>)
    requires Sound(World(store))
    modifies store`sats, store`nextId
    ensures Sound(World(store)) && Grows(old(store.sats), store.sats)
    ensures forall row :: row in rows && row.norad.Some? ==> Anchored(store.sats, row)
    ensures forall s :: s in store.sats && s !in old(store.sats) ==> FromRow(rows, store.sats[s])
    ensures (forall row :: row in rows && row.norad.Some? ==> Anchored(old(store.sats), row)) ==>
      World(store) == old(World(store))
  {
    for n := 0 to |rows|
      invariant Sound(World(store)) && Grows(old(store.sats), store.sats)
      invariant forall k :: 0 <= k < n && rows[k].norad.Some? ==> Anchored(store.sats, rows[k])
      invariant forall s :: s in store.sats && s !in old(store.sats) ==> FromRow(rows, store.sats[s])
      invariant (forall row :: row in rows && row.norad.Some? ==> Anchored(old(store.sats), row)) ==>
        World(store) == old(World(store))
    {
      var row := rows[n];
      ghost var before := store.sats;
      if row.norad.Some? {
        if s :| s in store.sats && store.sats[s].norad == row.norad {
          assert s in WithNorad(store.sats, Number(row));
        } else {
          assert row in rows && !Anchored(store.sats, row);
          var name := if row.name.Some? then row.name.value else Decimal(row.norad.value);
          var id := CreateSatellite(store, row.norad, row.launch, name);
          assert FromRow(rows, store.sats[id]);
          assert id in WithNorad(store.sats, Number(row));
        }
      }
      forall k | 0 <= k < n && rows[k].norad.Some? ensures Anchored(store.sats, rows[k]) {
        var s :| s in WithNorad(before, Number(rows[k]));
        assert s in WithNorad(store.sats, Number(rows[k]));
      }
    }
  }

  // ----- what the audit tables record ---------------------------------------------------

  function On(links: set<Link>, sat: SatId): set<Link> { set c | c in links && c.sat == sat }

  function LogCount(links: set<Link>, rule: string, e: LogEntry): nat {
    if e.surviving == e.merged && e.rule == rule then |On(links, e.surviving)| else 0
  }

  /** One log row for each link, on the link's own satellite, and nothing else. */
  ghost predicate LoggedFor(before: seq<LogEntry>, after: seq<LogEntry>, links: set<Link>, rule: string) {
    && before <= after
    && forall e: LogEntry :: multiset(after[|before|..])[e] == LogCount(links, rule, e)
  }

  /** One event of the kind for each link, on the link's satellite, and nothing else. */
  ghost predicate EventsFor(before: seq<Event>, after: seq<Event>, links: set<Link>, kind: EventKind) {
    && before <= after
    && forall e: Event :: multiset(after[|before|..])[e] == if e.kind == kind then |On(links, e.sat)| else 0
  }

  lemma OnGrows(links: set<Link>, c: Link, sat: SatId)
    requires c !in links
    ensures |On(links + {c}, sat)| == |On(links, sat)| + (if c.sat == sat then 1 else 0)
  {
    if c.sat == sat {
      assert On(links + {c}, sat) == On(links, sat) + {c};
    } else {
      assert On(links + {c}, sat) == On(links, sat);
    }
  }

  method LogLinks(store: GraphStore, links: set<Link>, rule: string)
    modifies store`log
    ensures LoggedFor(old(store.log), store.log, links, rule)
  {
    var left := links;
    ghost var done: set<Link> := {};
    assert store.log[|store.log|..] == [];
    while left != {}
      invariant done + left == links && done * left == {}
      invariant LoggedFor(old(store.log), store.log, done, rule)
      decreases left
    {
      var c :| c in left;
      ghost var added := store.log[|old(store.log)|..];
      var e := LogEntry(c.sat, c.sat, rule);
      store.log := store.log + [e];
      assert store.log[|old(store.log)|..] == added + [e];
      forall sat { OnGrows(done, c, sat); }
      left, done := left - {c}, done + {c};
    }
    assert done == links;
  }

  method LogEvents(store: GraphStore, links: set<Link>, kind: EventKind)
    modifies store`events
    ensures EventsFor(old(store.events), store.events, links, kind)
  {
    var left := links;
    ghost var done: set<Link> := {};
    assert store.events[|store.events|..] == [];
    while left != {}
      invariant done + left == links && done * left == {}
      invariant EventsFor(old(store.events), store.events, done, kind)
      decreases left
    {
      var c :| c in left;
      ghost var added := store.events[|old(store.events)|..];
      var e := Event(c.sat, kind);
      store.events := store.events + [e];
      assert store.events[|old(store.events)|..] == added + [e];
      forall sat { OnGrows(done, c, sat); }
      left, done := left - {c}, done + {c};
    }
    assert done == links;
  }

  /** The links that are new to the table, and those it has expired. */
  function Missing(t: Identifiers, links: set<Link>): set<Link> {
    set c | c in links && c.ident !in Keys(t, c.sat)
  }

  function Expiries(t: Identifiers, links: set<Link>): set<Link> {
    set c | c in links && Row(c.sat, c.ident, false) in t
  }

  /** `_bulk_link_by_norad`: the INSERT, then the UPDATE that revives; exactly the new rows are
      logged and exactly the revived ones leave an event. */
  method BulkLink(store: GraphStore, links: set<Link>)
    requires Sound(World(store)) && forall c :: c in links ==> c.sat in store.sats
    modifies store`identifiers, store`log, store`events
    ensures store.identifiers == LinkAll(old(store.identifiers), links) && Sound(World(store))
    ensures LoggedFor(old(store.log), store.log, Missing(old(store.identifiers), links), "norad_exact")
    ensures EventsFor(old(store.events), store.events, Expiries(old(store.identifiers), links), Revived)
  {
    ghost var t := store.identifiers;
    var created := Missing(store.identifiers, links);
    var revived := Expiries(store.identifiers, links);
    store.identifiers := (store.identifiers - set c | c in revived :: Row(c.sat, c.ident, false))
      + (set c | c in revived :: Row(c.sat, c.ident, true))
      + (set c | c in created :: Row(c.sat, c.ident, true));
    LinkAllUnique(t, links);
    LinkAllReferences(t, links, store.sats.Keys);
    InsertAndRevive(t, links, created, revived);
    LogLinks(store, created, "norad_exact");
    LogEvents(store, revived, Revived);
  }

  lemma InsertAndRevive(t: Identifiers, links: set<Link>, created: set<Link>, revived: set<Link>)
    requires Unique(t)
    requires created == set c | c in links && c.ident !in Keys(t, c.sat)
    requires revived == set c | c in links && Row(c.sat, c.ident, false) in t
    ensures (t - set c | c in revived :: Row(c.sat, c.ident, false))
      + (set c | c in revived :: Row(c.sat, c.ident, true))
      + (set c | c in created :: Row(c.sat, c.ident, true)) == LinkAll(t, links)
  {
    var u := (t - set c | c in revived :: Row(c.sat, c.ident, false))
      + (set c | c in revived :: Row(c.sat, c.ident, true))
      + (set c | c in created :: Row(c.sat, c.ident, true));
    EveryRowHasItsKey(t);
    forall r: Row<Ident, bool> ensures r in u <==> r in LinkAll(t, links) {
      var c := Link(r.sat, r.key);
      assert r == Row(c.sat, c.ident, r.data);
      LinkAllMember(t, links, c.sat, c.ident, r.data);
      if c in links && c !in created {
        var was :| was in t && was.sat == c.sat && was.key == c.ident;
        if was.data {
          assert was == Row(c.sat, c.ident, true);
        } else {
          assert was == Row(c.sat, c.ident, false);
          assert c in revived;
        }
      }
      if r.data {
        assert r == Row(c.sat, c.ident, true);
      } else {
        assert r == Row(c.sat, c.ident, false);
      }
    }
  }

  /** `_deterministic_gcat_norad` */
  method NoradPass(store: GraphStore, rows: seq<GcatRow>)
    requires Sound(World(store))
    modifies store`sats, store`nextId, store`identifiers, store`log, store`events
    ensures Sound(World(store)) && Grows(old(store.sats), store.sats)
    ensures forall row :: row in rows && row.norad.Some? ==> Anchored(store.sats, row)
    ensures (forall row :: row in rows && row.norad.Some? ==> Anchored(old(store.sats), row)) ==>
      store.sats == old(store.sats) && store.nextId == old(store.nextId)
    ensures store.identifiers == LinkAll(old(store.identifiers), Claims(store.sats, WithNoradOnly(rows)))
  {
    BulkUpsert(store, rows);
    var staged := WithNoradOnly(rows);
    ghost var t := store.identifiers;
    var ids := set row, s | row in staged && s in WithNorad(store.sats, Number(row)) :: Link(s, GcatId(row));
    var names := set row, s | row in staged && s in WithNorad(store.sats, Number(row)) && row.name.Some?
      :: Link(s, Ident("name_gcat", row.name.value, "gcat"));
    var pieces := set row, s | row in staged && s in WithNorad(store.sats, Number(row)) && row.cospar.Some?
      :: Link(s, Cospar(row.cospar.value));
    BulkLink(store, ids);
    BulkLink(store, names);
    BulkLink(store, pieces);
    LinkAllTwice(t, ids, names);
    LinkAllTwice(t, ids + names, pieces);
    assert ids + names + pieces == Claims(store.sats, staged) by {
      StagedClaims(store.sats, staged, ids, names, pieces);
    }
  }

  function WithNoradOnly(rows: seq<GcatRow>): (r: seq<GcatRow>)
    ensures forall row :: row in r <==> row in rows && row.norad.Some?
  {
    if rows == [] then [] else
      WithNoradOnly(rows[..|rows| - 1]) + (if rows[|rows| - 1].norad.Some? then [rows[|rows| - 1]] else [])
  }

  function WithoutNorad(rows: seq<GcatRow>): (r: seq<GcatRow>)
    ensures forall row :: row in r <==> row in rows && row.norad.None?
  {
    if rows == [] then [] else
      WithoutNorad(rows[..|rows| - 1]) + (if rows[|rows| - 1].norad.None? then [rows[|rows| - 1]] else [])
  }

  lemma StagedClaims(sats: map<SatId, Satellite>, staged: seq<GcatRow>, ids: set<Link>, names: set<Link>,
                     pieces: set<Link>)
    requires forall row :: row in staged ==> row.norad.Some?
    requires ids == set row, s | row in staged && s in WithNorad(sats, Number(row)) :: Link(s, GcatId(row))
    requires names == set row, s | row in staged && s in WithNorad(sats, Number(row)) && row.name.Some?
      :: Link(s, Ident("name_gcat", row.name.value, "gcat"))
    requires pieces == set row, s | row in staged && s in WithNorad(sats, Number(row)) && row.cospar.Some?
      :: Link(s, Cospar(row.cospar.value))
    ensures ids + names + pieces == Claims(sats, staged)
  {
    forall c | c in ids + names + pieces ensures c in Claims(sats, staged) {
      if c in ids {
        var row, s :| row in staged && s in WithNorad(sats, Number(row)) && c == Link(s, GcatId(row));
        assert c.ident in Idents(row);
      } else if c in names {
        var row, s :| row in staged && s in WithNorad(sats, Number(row)) && row.name.Some?
          && c == Link(s, Ident("name_gcat", row.name.value, "gcat"));
        assert c.ident in Idents(row);
      } else {
        var row, s :| row in staged && s in WithNorad(sats, Number(row)) && row.cospar.Some?
          && c == Link(s, Cospar(row.cospar.value));
        assert c.ident in Idents(row);
      }
    }
  }

  /** `_find_by_cospar`: the lowest id among the current holders. */
  method FindByCospar(t: Identifiers, value: string) returns (found: Option<SatId>)
    ensures found.None? <==> forall s :: s !in Holders(t, value)
    ensures found.Some? ==>
      found.value in Holders(t, value) && forall s :: s in Holders(t, value) ==> found.value <= s
  {
    found := None;
    var left := set r | r in t && r.key.idType == "cospar" && r.key.value == value && r.data;
    while left != {}
      invariant left <= t
      invariant forall r :: r in left ==> r.key.idType == "cospar" && r.key.value == value && r.data
      invariant found.Some? ==> found.value in Holders(t, value)
      invariant forall r: Row<Ident, bool> :: r in t && r.key.idType == "cospar" && r.key.value == value && r.data ==>
        r in left || (found.Some? && found.value <= r.sat)
      decreases left
    {
      var r :| r in left;
      if found.None? || r.sat < found.value { found := Some(r.sat); }
      left := left - {r};
    }
  }

  /** The log rows and events of one linked key. */
  function LogOf(t: Identifiers, sat: SatId, ident: Ident, rule: string): seq<LogEntry> {
    if ident in Keys(t, sat) then [] else [LogEntry(sat, sat, rule)]
  }

  function EventOf(t: Identifiers, sat: SatId, ident: Ident): seq<Event> {
    if Row(sat, ident, false) in t then [Event(sat, Revived)] else []
  }

  /** The two calls of `link` for a NORAD-less row: the piece when it is standard, then the key. */
  method LinkKeys(store: GraphStore, row: GcatRow, sat: SatId, rule: string)
    requires Sound(World(store)) && PieceOk(row) && row.norad.None? && sat in store.sats
    modifies store`identifiers, store`log, store`events
    ensures Sound(World(store))
    ensures store.identifiers == LinkAll(old(store.identifiers), LinksTo(row, sat))
    ensures store.log == old(store.log)
      + (if row.standard then LogOf(old(store.identifiers), sat, Cospar(row.cospar.value), rule) else [])
      + LogOf(old(store.identifiers), sat, GcatId(row), rule)
    ensures store.events == old(store.events)
      + (if row.standard then EventOf(old(store.identifiers), sat, Cospar(row.cospar.value)) else [])
      + EventOf(old(store.identifiers), sat, GcatId(row))
  {
    ghost var t := store.identifiers;
    LinkAllReferences(t, LinksTo(row, sat), store.sats.Keys);
    LinkAllUnique(t, LinksTo(row, sat));
    LinkedIsLinkAll(t, sat, GcatId(row));
    if row.standard {
      var piece := Cospar(row.cospar.value);
      var _ := store.Link(sat, piece, true, rule);
      KeyApart(t, sat, piece, GcatId(row));
      LinkedIsLinkAll(t, sat, piece);
      LinkedIsLinkAll(store.identifiers, sat, GcatId(row));
      LinkAllTwice(t, {Link(sat, piece)}, {Link(sat, GcatId(row))});
      assert LinksTo(row, sat) == {Link(sat, piece)} + {Link(sat, GcatId(row))} by { LinksOfRow(row, sat); }
    } else {
      assert LinksTo(row, sat) == {Link(sat, GcatId(row))} by { LinksOfRow(row, sat); }
    }
    var _ := store.Link(sat, GcatId(row), true, rule);
  }

  lemma LinksOfRow(row: GcatRow, sat: SatId)
    requires row.norad.None? && PieceOk(row)
    ensures LinksTo(row, sat) == {Link(sat, GcatId(row))} +
      if row.standard then {Link(sat, Cospar(row.cospar.value))} else {}
  {
    assert GcatId(row) in Idents(row);
    assert row.standard ==> Cospar(row.cospar.value) in Idents(row);
  }

  /** Linking one key says nothing about another. */
  lemma KeyApart(t: Identifiers, sat: SatId, ident: Ident, other: Ident)
    requires ident.idType != other.idType
    ensures other in Keys(Linked(t, sat, ident), sat) <==> other in Keys(t, sat)
    ensures Row(sat, other, false) in Linked(t, sat, ident) <==> Row(sat, other, false) in t
  {
    if other in Keys(t, sat) {
      var r :| r in t && r.sat == sat && r.key == other;
      assert r in Linked(t, sat, ident);
    }
  }

  /** One NORAD-less row of `_cospar_pass`, with the log rows and events of its links. */
  method CosparRow(store: GraphStore, row: GcatRow) returns (sat: Option<SatId>)
    requires Sound(World(store)) && row.norad.None? && PieceOk(row)
    modifies store
    ensures Sound(World(store)) && World(store) == CosparStep(old(World(store)), row)
    ensures sat.None? <==> !Anchored(old(store.sats), row) && !row.standard
    ensures sat.Some? ==>
      var rule := if Anchored(old(store.sats), row) then "jcat_number" else "cospar_exact";
      store.log == old(store.log)
        + (if row.standard then LogOf(old(store.identifiers), sat.value, Cospar(row.cospar.value), rule) else [])
        + LogOf(old(store.identifiers), sat.value, GcatId(row), rule)
    ensures sat.Some? ==>
      store.events == old(store.events)
        + (if row.standard then EventOf(old(store.identifiers), sat.value, Cospar(row.cospar.value)) else [])
        + EventOf(old(store.identifiers), sat.value, GcatId(row))
  {
    if s :| s in store.sats && row.number.Some? && store.sats[s].norad == row.number {
      assert s in WithNorad(store.sats, Number(row));
      ClaimsOfAnchoredRow(store.sats, [], row, s);
      assert [] + [row] == [row];
      LinkKeys(store, row, s, "jcat_number");
      return Some(s);
    }
    assert !Anchored(store.sats, row);
    if !row.standard {
      return None;
    }
    sat := FindByCospar(store.identifiers, row.cospar.value);
    if sat.Some? {
      HoldersExist(World(store), row.cospar.value);
      assert sat.value == Lowest(Holders(store.identifiers, row.cospar.value));
    } else {
      assert Holders(store.identifiers, row.cospar.value) == {};
      var id := CreateSatellite(store, None, row.launch, NameOr(row, row.cospar.value));
      sat := Some(id);
    }
    LinkKeys(store, row, sat.value, "cospar_exact");
  }

  lemma ClaimsSplit(sats: map<SatId, Satellite>, rows: seq<GcatRow>)
    ensures Claims(sats, rows) == Claims(sats, WithNoradOnly(rows)) + Claims(sats, WithoutNorad(rows))
  {
  }

  lemma ClaimsOfAnchoredRow(sats: map<SatId, Satellite>, rows: seq<GcatRow>, row: GcatRow, sat: SatId)
    requires NoradUnique(sats) && sat in WithNorad(sats, Number(row))
    ensures Claims(sats, rows + [row])
         == Claims(sats, rows) + set i | i in Idents(row) :: Link(sat, i)
  {
    assert forall s :: s in WithNorad(sats, Number(row)) ==> s == sat;
    forall c | c in Claims(sats, rows + [row])
      ensures c in Claims(sats, rows) + set i | i in Idents(row) :: Link(sat, i)
    {
      var x, s, i :| x in rows + [row] && s in WithNorad(sats, Number(x)) && i in Idents(x) && c == Link(s, i);
      if x in rows { assert Link(s, i) in Claims(sats, rows); }
    }
    assert row in rows + [row];
  }

  /** The GCAT half of `_cospar_pass`. */
  method CosparPass(store: GraphStore, rows: seq<GcatRow>)
    requires Sound(World(store))
    requires forall row :: row in rows ==> row.norad.None? && PieceOk(row)
    modifies store
    ensures Sound(World(store)) && World(store) == CosparAll(old(World(store)), rows)
  {
    for n := 0 to |rows|
      invariant Sound(World(store)) && World(store) == CosparAll(old(World(store)), rows[..n])
    {
      assert rows[..n + 1][..n] == rows[..n];
      var _ := CosparRow(store, rows[n]);
    }
    assert rows[..|rows|] == rows;
  }

  /** On rows that are all anchored the pass only makes their claims current. */
  lemma {:induction false} CosparAllAnchored(w: Crosswalk, rows: seq<GcatRow>)
    requires forall row :: row in rows ==> PieceOk(row) && Anchored(w.sats, row)
    requires Unique(w.links)
    ensures CosparAll(w, rows) == w.(links := LinkAll(w.links, Claims(w.sats, rows)))
  {
    if rows == [] {
      LinkAllLiveIsNothing(w.links, Claims(w.sats, []));
    } else {
      var front, last := rows[..|rows| - 1], rows[|rows| - 1];
      CosparAllAnchored(w, front);
      assert last in rows;
      LinkAllTwice(w.links, Claims(w.sats, front), Claims(w.sats, [last]));
      assert Claims(w.sats, rows) == Claims(w.sats, front) + Claims(w.sats, [last]) by {
        assert rows == front + [last];
      }
    }
  }

  function LinksOf(victims: Identifiers): set<Link> { set r | r in victims :: Link(r.sat, r.key) }

  lemma RetireSound(w: Crosswalk, victims: Identifiers)
    requires Sound(w) && victims <= w.links && forall r :: r in victims ==> r.data
    ensures Sound(w.(links := Retire(w.links, victims)))
  {
    var after := Retire(w.links, victims);
    forall a, b | a in after && b in after && a.sat == b.sat && a.key == b.key ensures a == b {
      assert a == Row(a.sat, a.key, a.data) && b == Row(b.sat, b.key, b.data);
      RetireMember(w.links, victims, a.sat, a.key, a.data);
      RetireMember(w.links, victims, b.sat, b.key, b.data);
    }
  }

  /** `expire_moved_gcat_keys`: retired, never deleted, one event for each. */
  method ExpireMoved(store: GraphStore, rows: seq<GcatRow>) returns (expired: nat)
    requires Sound(World(store))
    modifies store`identifiers, store`events
    ensures store.identifiers
         == Retire(old(store.identifiers), MovedKeys(old(store.identifiers), store.sats, rows))
    ensures Sound(World(store))
    ensures expired == |MovedKeys(old(store.identifiers), store.sats, rows)|
    ensures EventsFor(old(store.events), store.events,
                      LinksOf(MovedKeys(old(store.identifiers), store.sats, rows)), Expired)
  {
    var victims := MovedKeys(store.identifiers, store.sats, rows);
    RetireSound(World(store), victims);
    store.identifiers := (store.identifiers - victims) + set r | r in victims :: Row(r.sat, r.key, false);
    expired := |victims|;
    LogEvents(store, LinksOf(victims), Expired);
  }

  /** `expire_contested`: only current links of provisional satellites under churned volatile keys
      are retired, with one event each; every other link keeps its state, and no key is deleted. */
  method ExpireContested(store: GraphStore, churned: set<(string, string)>) returns (expired: nat)
    requires Sound(World(store))
    modifies store`identifiers, store`events
    ensures store.identifiers
         == Retire(old(store.identifiers), ContestedLinks(old(store.identifiers), store.sats, churned))
    ensures Sound(World(store))
    ensures forall sat, ident :: Live(store.identifiers, sat, ident) <==>
      Live(old(store.identifiers), sat, ident)
      && !((ident.idType == "gcat_id" || ident.idType == "cospar") && (ident.idType, ident.value) in churned
        && sat in store.sats && store.sats[sat].norad.None?)
    ensures forall sat :: Keys(store.identifiers, sat) == Keys(old(store.identifiers), sat)
    ensures expired == |ContestedLinks(old(store.identifiers), store.sats, churned)|
    ensures EventsFor(old(store.events), store.events,
                      LinksOf(ContestedLinks(old(store.identifiers), store.sats, churned)), Expired)
  {
    ghost var t := store.identifiers;
    var victims := ContestedLinks(store.identifiers, store.sats, churned);
    RetireSound(World(store), victims);
    store.identifiers := Retire(store.identifiers, victims);
    expired := |victims|;
    LogEvents(store, LinksOf(victims), Expired);
    forall sat, ident, live: bool
      ensures Row(sat, ident, live) in store.identifiers <==>
        if Row(sat, ident, true) in victims then !live else Row(sat, ident, live) in t
    {
      RetireMember(t, victims, sat, ident, live);
    }
  }

  // ----- what a row says ----------------------------------------------------------------

  /** The identifiers of a row: its key, always; its piece, when it is normalized and the row has a NORAD or
      the piece is standard; its name, when the row has a NORAD. */
  lemma IdentsIff(row: GcatRow, ident: Ident)
    ensures ident in Idents(row) <==> ident.source == "gcat" && Names(row, ident.idType, ident.value)
  {
  }

  predicate Names(row: GcatRow, idType: string, value: string) {
    || (idType == "gcat_id" && value == row.jcat)
    || (idType == "cospar" && row.cospar == Some(value) && (row.norad != None || row.standard))
    || (idType == "name_gcat" && row.name == Some(value) && row.norad != None)
  }

  /** The row's NORAD is the satellite's; without one, the number in the row's key is. */
  predicate Reaches(sats: map<SatId, Satellite>, row: GcatRow, s: SatId) {
    && s in sats && sats[s].norad != None
    && (row.norad == sats[s].norad || (row.norad == None && row.number == sats[s].norad))
  }

  /** What the passes claim: each identifier of a row, for the satellite its number reaches. */
  lemma ClaimsIff(sats: map<SatId, Satellite>, rows: seq<GcatRow>, s: SatId, ident: Ident)
    ensures Link(s, ident) in Claims(sats, rows) <==>
      exists row :: row in rows && Reaches(sats, row, s) && ident in Idents(row)
  {
  }

  /** A row of the key-number pass: a satellite reached by the number takes the row's links; otherwise the
      lowest current holder of a standard piece does, or a new satellite without a NORAD, named after the
      row or else after the piece. Any other row changes nothing. */
  lemma CosparStepIs(w: Crosswalk, row: GcatRow)
    requires PieceOk(row)
    ensures var after := CosparStep(w, row);
      if exists s :: Reaches(w.sats, row, s) then
        && after.sats == w.sats && after.nextId == w.nextId
        && forall s :: Reaches(w.sats, row, s) ==> TakesLinks(row, s, after)
      else UnreachedStep(w, row, after)
  {
    assert Anchored(w.sats, row) <==> exists s :: Reaches(w.sats, row, s) by {
      if Anchored(w.sats, row) {
        var s :| s in WithNorad(w.sats, Number(row));
        assert Reaches(w.sats, row, s);
      }
      if s :| Reaches(w.sats, row, s) {
        assert s in WithNorad(w.sats, Number(row));
      }
    }
    if Anchored(w.sats, row) {
      forall s | Reaches(w.sats, row, s) ensures TakesLinks(row, s, CosparStep(w, row)) {
        forall i | i in Idents(row) ensures Row(s, i, true) in CosparStep(w, row).links {
          ClaimsIff(w.sats, [row], s, i);
          assert row in [row];
          LinkAllMember(w.links, Claims(w.sats, [row]), s, i, true);
        }
      }
    } else {
      UnreachedIs(w, row);
    }
  }

  ghost predicate UnreachedStep(w: Crosswalk, row: GcatRow, after: Crosswalk)
    requires PieceOk(row)
  {
    if !row.standard then after == w
    else
      var held := Holders(w.links, row.cospar.value);
      if held != {} then
        && after.sats == w.sats && after.nextId == w.nextId
        && exists low :: low in held && (forall s :: s in held ==> low <= s) && TakesLinks(row, low, after)
      else
        && after.nextId == w.nextId + 1 && TakesLinks(row, w.nextId, after)
        && (forall s :: s != w.nextId ==> (s in after.sats <==> s in w.sats))
        && w.nextId in after.sats && after.sats[w.nextId].norad == None && after.sats[w.nextId].launch == row.launch
        && after.sats[w.nextId].name ==
          if row.name == None || row.name == Some("") then row.cospar.value else row.name.value
  }

  ghost predicate TakesLinks(row: GcatRow, s: SatId, after: Crosswalk) {
    forall i :: i in Idents(row) ==> Row(s, i, true) in after.links
  }

  lemma UnreachedIs(w: Crosswalk, row: GcatRow)
    requires PieceOk(row)
    ensures UnreachedStep(w, row, LinkRow(w, row))
  {
    if row.standard {
      var held := Holders(w.links, row.cospar.value);
      var s := if held != {} then Lowest(held) else w.nextId;
      forall i | i in Idents(row) ensures Row(s, i, true) in LinkAll(w.links, LinksTo(row, s)) {
        assert Link(s, i) in LinksTo(row, s);
        LinkAllMember(w.links, LinksTo(row, s), s, i, true);
      }
      assert TakesLinks(row, s, LinkRow(w, row));
    }
  }
}
