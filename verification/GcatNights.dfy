/** Whole nights of the GCAT passes of `GcatLinks` on one snapshot, rows without an anchor included:
    when does another night change nothing? */
module GcatNights {
  import opened Wrappers
  import opened Graph
  import opened GcatLinks

  /** raw_gcat_satcat holds one row for each key of a run. */
  ghost predicate Snapshot(rows: seq<GcatRow>) {
    && (forall i, j :: 0 <= i < j < |rows| ==> rows[i].jcat != rows[j].jcat)
    && (forall row :: row in rows ==> PieceOk(row))
  }

  // ----- one night ----------------------------------------------------------------------

  /** The two link passes, once every NORAD of the snapshot has its satellite. */
  ghost function AfterLinks(w: Crosswalk, rows: seq<GcatRow>): Crosswalk
    requires Snapshot(rows)
  {
    CosparAll(w.(links := LinkAll(w.links, Claims(w.sats, WithNoradOnly(rows)))), WithoutNorad(rows))
  }

  ghost function AfterMoved(w: Crosswalk, rows: seq<GcatRow>): Crosswalk
    requires Snapshot(rows)
  {
    var linked := AfterLinks(w, rows);
    linked.(links := Retire(linked.links, MovedKeys(linked.links, linked.sats, rows)))
  }

  ghost function NightOf(w: Crosswalk, rows: seq<GcatRow>, churned: set<(string, string)>): Crosswalk
    requires Snapshot(rows)
  {
    var moved := AfterMoved(w, rows);
    moved.(links := Retire(moved.links, ContestedLinks(moved.links, moved.sats, churned)))
  }

  ghost predicate NoradsPresent(sats: map<SatId, Satellite>, rows: seq<GcatRow>) {
    forall row :: row in rows && row.norad.Some? ==> Anchored(sats, row)
  }

  /** The crosswalk can take a night of this snapshot. */
  ghost predicate Ready(w: Crosswalk, rows: seq<GcatRow>) {
    Sound(w) && Snapshot(rows) && NoradsPresent(w.sats, rows)
  }

  /** New satellites change no claim and no key's anchors. */
  lemma ClaimsAsBefore(a: map<SatId, Satellite>, b: map<SatId, Satellite>, rows: seq<GcatRow>)
    requires Grows(a, b) && forall s :: s in b && s !in a ==> b[s].norad.None?
    ensures Claims(b, rows) == Claims(a, rows)
    ensures forall i :: KeyAnchors(b, rows, i) == KeyAnchors(a, rows, i)
    ensures NoradsPresent(b, rows) <==> NoradsPresent(a, rows)
  {
    forall row: GcatRow ensures WithNorad(b, Number(row)) == WithNorad(a, Number(row)) {
      AnchoredAsBefore(a, b, row);
    }
    forall row: GcatRow ensures Anchored(b, row) <==> Anchored(a, row) {
      AnchoredAsBefore(a, b, row);
    }
  }

  /** The link passes only make links current, the claims among them. */
  lemma {:induction false} CosparAllLinks(w: Crosswalk, rows: seq<GcatRow>) returns (made: set<Link>)
    requires Sound(w) && forall row :: row in rows ==> PieceOk(row)
    ensures CosparAll(w, rows).links == LinkAll(w.links, made)
    ensures Claims(w.sats, rows) <= made
  {
    if rows == [] {
      made := {};
      LinkAllLiveIsNothing(w.links, {});
      return;
    }
    var front, last := rows[..|rows| - 1], rows[|rows| - 1];
    assert last in rows;
    var before := CosparAllLinks(w, front);
    var mid := CosparAll(w, front);
    CosparAllSound(w, front);
    AnchoredAsBefore(w.sats, mid.sats, last);
    ClaimsAsBefore(w.sats, mid.sats, [last]);
    var step: set<Link> := {};
    if Anchored(mid.sats, last) {
      step := Claims(mid.sats, [last]);
    } else if last.standard {
      var held := Holders(mid.links, last.cospar.value);
      step := LinksTo(last, if held != {} then Lowest(held) else mid.nextId);
    } else {
      LinkAllLiveIsNothing(mid.links, {});
    }
    made := before + step;
    LinkAllTwice(w.links, before, step);
    forall c | c in Claims(w.sats, rows) ensures c in made {
      var row, s, i :| row in rows && s in WithNorad(w.sats, Number(row)) && i in Idents(row) && c == Link(s, i);
      if row in front {
        assert c in Claims(w.sats, front);
      } else {
        assert row == last && Anchored(w.sats, row);
        assert c in Claims(w.sats, [last]);
      }
    }
  }

  lemma AfterLinksFacts(w: Crosswalk, rows: seq<GcatRow>)
    requires Ready(w, rows)
    ensures var linked := AfterLinks(w, rows);
      && Sound(linked) && Grows(w.sats, linked.sats)
      && (forall s :: s in linked.sats && s !in w.sats ==> linked.sats[s].norad.None?)
      && (forall c :: c in Claims(w.sats, rows) ==> Live(linked.links, c.sat, c.ident))
  {
    var claims := Claims(w.sats, WithNoradOnly(rows));
    var start := w.(links := LinkAll(w.links, claims));
    LinkAllUnique(w.links, claims);
    LinkAllReferences(w.links, claims, w.sats.Keys);
    CosparAllSound(start, WithoutNorad(rows));
    var made := CosparAllLinks(start, WithoutNorad(rows));
    LinkAllTwice(w.links, claims, made);
    ClaimsSplit(w.sats, rows);
    forall c | c in Claims(w.sats, rows) ensures Live(AfterLinks(w, rows).links, c.sat, c.ident) {
      LinkAllMember(w.links, claims + made, c.sat, c.ident, true);
    }
  }

  /** What a night leaves: every claim current, no key moved, no current link contested. */
  ghost predicate NightDone(w: Crosswalk, rows: seq<GcatRow>, churned: set<(string, string)>) {
    && Ready(w, rows)
    && (forall c :: c in Claims(w.sats, rows) ==> Live(w.links, c.sat, c.ident))
    && MovedKeys(w.links, w.sats, rows) == {}
    && ContestedLinks(w.links, w.sats, churned) == {}
  }

  lemma RetireLive(t: Identifiers, victims: Identifiers)
    requires Unique(t) && victims <= t && forall r :: r in victims ==> r.data
    ensures forall s, i :: Live(Retire(t, victims), s, i) <==> Live(t, s, i) && Row(s, i, true) !in victims
    ensures forall s, i :: Row(s, i, false) in Retire(t, victims) <==>
      Row(s, i, false) in t || Row(s, i, true) in victims
  {
    forall s, i ensures Live(Retire(t, victims), s, i) <==> Live(t, s, i) && Row(s, i, true) !in victims {
      RetireMember(t, victims, s, i, true);
    }
    forall s, i ensures Row(s, i, false) in Retire(t, victims) <==>
      Row(s, i, false) in t || Row(s, i, true) in victims
    {
      RetireMember(t, victims, s, i, false);
    }
  }

  lemma NightLeavesDone(w: Crosswalk, rows: seq<GcatRow>, churned: set<(string, string)>)
    requires Ready(w, rows)
    ensures NightDone(NightOf(w, rows, churned), rows, churned)
    ensures Grows(w.sats, NightOf(w, rows, churned).sats)
    ensures forall s :: s in NightOf(w, rows, churned).sats && s !in w.sats ==>
      NightOf(w, rows, churned).sats[s].norad.None?
  {
    AfterLinksFacts(w, rows);
    var linked, moved, done := AfterLinks(w, rows), AfterMoved(w, rows), NightOf(w, rows, churned);
    var off := MovedKeys(linked.links, linked.sats, rows);
    var contested := ContestedLinks(moved.links, moved.sats, churned);
    RetireSound(linked, off);
    RetireSound(moved, contested);
    ClaimsAsBefore(w.sats, linked.sats, rows);
    RetireLive(linked.links, off);
    RetireLive(moved.links, contested);
    forall c | c in Claims(done.sats, rows) ensures Live(done.links, c.sat, c.ident) {
      ClaimsAreNotMoved(linked.links, linked.sats, rows, c);
    }
    NothingMovedTwice(linked.links, linked.sats, rows);
    forall r | r in done.links
      ensures !Moved(done.links, KeyAnchors(done.sats, rows, r.key), r) && !Contested(done.sats, churned, r)
    {
      if r.data {
        assert r == Row(r.sat, r.key, true);
        assert Live(moved.links, r.sat, r.key) && !Moved(moved.links, KeyAnchors(done.sats, rows, r.key), r);
      }
    }
  }

  // ----- when the next night changes nothing --------------------------------------------

  /** A row the piece decides. */
  ghost predicate Waits(sats: map<SatId, Satellite>, row: GcatRow) {
    row.norad.None? && row.standard && row.cospar.Some? && !Anchored(sats, row)
  }

  ghost predicate Held(t: Identifiers, row: GcatRow)
    requires row.cospar.Some?
  {
    Holders(t, row.cospar.value) != {}
  }

  ghost predicate AllHeld(w: Crosswalk, rows: seq<GcatRow>) {
    forall row :: row in rows && Waits(w.sats, row) ==> Held(w.links, row)
  }

  /** The links of the waiting rows, each to its piece's lowest holder. */
  ghost function Planned(w: Crosswalk, rows: seq<GcatRow>): set<Link> {
    set row, i | row in rows && Waits(w.sats, row) && Held(w.links, row) && i in Idents(row)
      :: Link(Lowest(Holders(w.links, row.cospar.value)), i)
  }

  lemma WaitingIdents(row: GcatRow, i: Ident)
    requires row.norad.None? && row.standard && row.cospar.Some?
    ensures i in Idents(row) <==> i == GcatId(row) || i == Cospar(row.cospar.value)
  {
  }

  /** Linking a piece's lowest holder makes nobody a holder who was none. */
  lemma PlannedKeepsHolders(w: Crosswalk, rows: seq<GcatRow>, value: string)
    ensures Holders(LinkAll(w.links, Planned(w, rows)), value) == Holders(w.links, value)
  {
    var planned := Planned(w, rows);
    var after := LinkAll(w.links, planned);
    forall s | s in Holders(after, value) ensures s in Holders(w.links, value) {
      var r :| r in after && r.key.idType == "cospar" && r.key.value == value && r.data && r.sat == s;
      assert r == Row(s, r.key, true);
      LinkAllMember(w.links, planned, s, r.key, true);
      if Link(s, r.key) in planned {
        var row, i :| row in rows && Waits(w.sats, row) && Held(w.links, row) && i in Idents(row)
          && Link(s, r.key) == Link(Lowest(Holders(w.links, row.cospar.value)), i);
        WaitingIdents(row, i);
        assert "gcat_id"[0] == 'g' && "cospar"[0] == 'c';
        assert i == Cospar(row.cospar.value);
      }
    }
    forall s | s in Holders(w.links, value) ensures s in Holders(after, value) {
      var r :| r in w.links && r.key.idType == "cospar" && r.key.value == value && r.data && r.sat == s;
      assert r == Row(s, r.key, true);
      LinkAllMember(w.links, planned, s, r.key, true);
      assert r in after;
    }
  }

  lemma PlannedAppend(w: Crosswalk, front: seq<GcatRow>, last: GcatRow)
    ensures Planned(w, front + [last]) == Planned(w, front) + Planned(w, [last])
  {
    var all := front + [last];
    forall c | c in Planned(w, all) ensures c in Planned(w, front) + Planned(w, [last]) {
      var row, i :| row in all && Waits(w.sats, row) && Held(w.links, row) && i in Idents(row)
        && c == Link(Lowest(Holders(w.links, row.cospar.value)), i);
      if row in front { assert c in Planned(w, front); } else { assert row in [last]; }
    }
    assert forall row :: row in front || row in [last] ==> row in all;
  }

  /** The key-number and piece pass when every anchored row's claim is current: it creates a satellite
      exactly when some waiting row's piece has no holder, and otherwise makes the planned links
      current. */
  lemma {:induction false} CosparAllPlan(w: Crosswalk, rows: seq<GcatRow>)
    requires Sound(w) && forall row :: row in rows ==> PieceOk(row) && row.norad.None?
    requires forall c :: c in Claims(w.sats, rows) ==> Live(w.links, c.sat, c.ident)
    ensures CosparAll(w, rows).sats == w.sats <==> AllHeld(w, rows)
    ensures AllHeld(w, rows) ==>
      CosparAll(w, rows) == w.(links := LinkAll(w.links, Planned(w, rows)))
  {
    if rows == [] {
      LinkAllLiveIsNothing(w.links, {});
      assert Planned(w, rows) == {};
      return;
    }
    var front, last := rows[..|rows| - 1], rows[|rows| - 1];
    assert rows == front + [last] && last in rows;
    forall c | c in Claims(w.sats, front) ensures c in Claims(w.sats, rows) { }
    CosparAllPlan(w, front);
    var mid := CosparAll(w, front);
    CosparAllSound(w, front);
    CosparStepSound(mid, last);
    if mid.sats != w.sats {
      assert CosparAll(w, rows).sats != w.sats;
      return;
    }
    PlannedAppend(w, front, last);
    PlannedKeepsHolders(w, front, if last.cospar.Some? then last.cospar.value else "");
    LastStep(w, front, last, mid);
  }

  lemma LastStep(w: Crosswalk, front: seq<GcatRow>, last: GcatRow, mid: Crosswalk)
    requires Sound(w) && PieceOk(last) && last.norad.None?
    requires forall c :: c in Claims(w.sats, front + [last]) ==> Live(w.links, c.sat, c.ident)
    requires mid == w.(links := LinkAll(w.links, Planned(w, front)))
    requires last.cospar.Some? ==>
      Holders(mid.links, last.cospar.value) == Holders(w.links, last.cospar.value)
    ensures CosparStep(mid, last).sats == w.sats <==> (Waits(w.sats, last) ==> Held(w.links, last))
    ensures CosparStep(mid, last).sats == w.sats ==>
      CosparStep(mid, last) == w.(links := LinkAll(w.links, Planned(w, front) + Planned(w, [last])))
  {
    if Anchored(w.sats, last) {
      var claims := Claims(w.sats, [last]);
      forall c | c in claims ensures Live(mid.links, c.sat, c.ident) {
        assert c in Claims(w.sats, front + [last]);
        LinkAllMember(w.links, Planned(w, front), c.sat, c.ident, true);
      }
      LinkAllUnique(w.links, Planned(w, front));
      LinkAllLiveIsNothing(mid.links, claims);
      assert Planned(w, [last]) == {};
      assert Planned(w, front) + {} == Planned(w, front);
    } else if last.standard {
      if Held(w.links, last) {
        var low := Lowest(Holders(w.links, last.cospar.value));
        LinkAllTwice(w.links, Planned(w, front), LinksTo(last, low));
        assert LinksTo(last, low) == Planned(w, [last]) by {
          assert last in [last];
        }
      } else {
        assert w.nextId in CosparStep(mid, last).sats && w.nextId !in w.sats;
      }
    } else {
      assert Planned(w, [last]) == {};
      assert Planned(w, front) + {} == Planned(w, front);
    }
  }

  /** The key's only anchor holds it, and it is another satellite. */
  ghost predicate MovedAway(w: Crosswalk, rows: seq<GcatRow>, sat: SatId, ident: Ident) {
    var anchors := KeyAnchors(w.sats, rows, ident);
    |anchors| == 1 && sat !in anchors && exists a :: a in anchors && Live(w.links, a, ident)
  }

  /** Making the link current leaves the tables, by the end of the night, as they are: it is current
      already, or it is there and would be retired again. */
  ghost predicate Stays(w: Crosswalk, rows: seq<GcatRow>, churned: set<(string, string)>, sat: SatId,
                        ident: Ident) {
    || Live(w.links, sat, ident)
    || (Row(sat, ident, false) in w.links
        && (MovedAway(w, rows, sat, ident) || Contested(w.sats, churned, Row(sat, ident, true))))
  }

  ghost predicate Settled(w: Crosswalk, rows: seq<GcatRow>, churned: set<(string, string)>, row: GcatRow)
    requires row.cospar.Some?
  {
    && Held(w.links, row)
    && var low := Lowest(Holders(w.links, row.cospar.value));
    && Stays(w, rows, churned, low, Cospar(row.cospar.value))
    && Stays(w, rows, churned, low, GcatId(row))
  }

  ghost predicate AllSettled(w: Crosswalk, rows: seq<GcatRow>, churned: set<(string, string)>) {
    forall row :: row in rows && Waits(w.sats, row) ==> Settled(w, rows, churned, row)
  }

  /** No two planned links share a key. */
  lemma PlannedOnce(w: Crosswalk, rows: seq<GcatRow>, a: Link, b: Link)
    requires Snapshot(rows) && a in Planned(w, rows) && b in Planned(w, rows) && a.ident == b.ident
    ensures a == b
  {
    var row, i :| row in rows && Waits(w.sats, row) && Held(w.links, row) && i in Idents(row)
      && a == Link(Lowest(Holders(w.links, row.cospar.value)), i);
    var other, j :| other in rows && Waits(w.sats, other) && Held(w.links, other) && j in Idents(other)
      && b == Link(Lowest(Holders(w.links, other.cospar.value)), j);
    WaitingIdents(row, i);
    WaitingIdents(other, j);
    assert "gcat_id"[0] == 'g' && "cospar"[0] == 'c';
    if i == GcatId(row) {
      assert row.jcat == other.jcat;
      SameRow(rows, row, other);
    }
  }

  lemma SameRow(rows: seq<GcatRow>, row: GcatRow, other: GcatRow)
    requires Snapshot(rows) && row in rows && other in rows && row.jcat == other.jcat
    ensures row == other
  {
    var i :| 0 <= i < |rows| && rows[i] == row;
    var j :| 0 <= j < |rows| && rows[j] == other;
  }

  /** The night when every waiting row's piece is held. */
  lemma HeldNight(w: Crosswalk, rows: seq<GcatRow>)
    requires Ready(w, rows) && forall c :: c in Claims(w.sats, rows) ==> Live(w.links, c.sat, c.ident)
    ensures AfterLinks(w, rows).sats == w.sats <==> AllHeld(w, rows)
    ensures AllHeld(w, rows) ==>
      AfterLinks(w, rows) == w.(links := LinkAll(w.links, Planned(w, rows)))
  {
    var claims := Claims(w.sats, WithNoradOnly(rows));
    ClaimsSplit(w.sats, rows);
    LinkAllLiveIsNothing(w.links, claims);
    assert w.(links := w.links) == w;
    var rest := WithoutNorad(rows);
    CosparAllPlan(w, rest);
    assert Planned(w, rest) == Planned(w, rows) by {
      assert forall row :: Waits(w.sats, row) ==> (row in rest <==> row in rows);
    }
    assert AllHeld(w, rest) <==> AllHeld(w, rows);
  }

  /** Which links are retired again, when the waiting rows' links are made current in tables a night
      has left. */
  lemma RetiredAgain(w: Crosswalk, rows: seq<GcatRow>, churned: set<(string, string)>, sat: SatId, ident: Ident)
    requires NightDone(w, rows, churned) && AllHeld(w, rows)
    requires Link(sat, ident) in Planned(w, rows)
    ensures Moved(LinkAll(w.links, Planned(w, rows)), KeyAnchors(w.sats, rows, ident), Row(sat, ident, true))
       <==> ident.source == "gcat" && MovedAway(w, rows, sat, ident)
  {
    var planned := Planned(w, rows);
    var after := LinkAll(w.links, planned);
    LinkAllMember(w.links, planned, sat, ident, true);
    forall a | a != sat ensures Live(after, a, ident) <==> Live(w.links, a, ident) {
      LinkAllMember(w.links, planned, a, ident, true);
      if Link(a, ident) in planned { PlannedOnce(w, rows, Link(a, ident), Link(sat, ident)); }
    }
  }

  /** Where a night ends, link by link. */
  lemma NightEnds(w: Crosswalk, rows: seq<GcatRow>, churned: set<(string, string)>, sat: SatId, ident: Ident)
    requires Ready(w, rows)
    ensures var linked, done := AfterLinks(w, rows), NightOf(w, rows, churned);
      var gone := Moved(linked.links, KeyAnchors(linked.sats, rows, ident), Row(sat, ident, true))
        || Contested(linked.sats, churned, Row(sat, ident, true));
      && done.sats == linked.sats
      && (Live(done.links, sat, ident) <==> Live(linked.links, sat, ident) && !gone)
      && (Row(sat, ident, false) in done.links <==>
        Row(sat, ident, false) in linked.links || (Live(linked.links, sat, ident) && gone))
  {
    AfterLinksFacts(w, rows);
    var linked, moved := AfterLinks(w, rows), AfterMoved(w, rows);
    var off := MovedKeys(linked.links, linked.sats, rows);
    RetireSound(linked, off);
    RetireLive(linked.links, off);
    RetireLive(moved.links, ContestedLinks(moved.links, moved.sats, churned));
  }

  lemma StaysIfUnchanged(w: Crosswalk, rows: seq<GcatRow>, churned: set<(string, string)>, c: Link)
    requires NightDone(w, rows, churned) && AllHeld(w, rows) && c in Planned(w, rows)
    requires NightOf(w, rows, churned) == w
    ensures Stays(w, rows, churned, c.sat, c.ident)
  {
    HeldNight(w, rows);
    NightEnds(w, rows, churned, c.sat, c.ident);
    LinkAllMember(w.links, Planned(w, rows), c.sat, c.ident, true);
    RetiredAgain(w, rows, churned, c.sat, c.ident);
  }

  lemma PlannedStays(w: Crosswalk, rows: seq<GcatRow>, churned: set<(string, string)>, c: Link)
    requires AllSettled(w, rows, churned) && c in Planned(w, rows)
    ensures Stays(w, rows, churned, c.sat, c.ident) && c.ident.source == "gcat"
  {
    var row, i :| row in rows && Waits(w.sats, row) && Held(w.links, row) && i in Idents(row)
      && c == Link(Lowest(Holders(w.links, row.cospar.value)), i);
    WaitingIdents(row, i);
    assert Settled(w, rows, churned, row);
  }

  lemma AnchorHasNorad(sats: map<SatId, Satellite>, rows: seq<GcatRow>, ident: Ident, a: SatId)
    requires a in KeyAnchors(sats, rows, ident)
    ensures a in sats && sats[a].norad.Some?
  {
  }

  /** A planned link that stays does not bring on a move of the key's other links. */
  lemma NoneMovedByPlan(w: Crosswalk, rows: seq<GcatRow>, churned: set<(string, string)>, sat: SatId,
                        ident: Ident)
    requires NightDone(w, rows, churned) && AllHeld(w, rows) && AllSettled(w, rows, churned)
    requires Live(w.links, sat, ident)
    ensures !Moved(LinkAll(w.links, Planned(w, rows)), KeyAnchors(w.sats, rows, ident), Row(sat, ident, true))
  {
    var planned := Planned(w, rows);
    var anchors := KeyAnchors(w.sats, rows, ident);
    assert Row(sat, ident, true) !in MovedKeys(w.links, w.sats, rows);
    forall a | a in anchors && Live(LinkAll(w.links, planned), a, ident) ensures Live(w.links, a, ident) {
      LinkAllMember(w.links, planned, a, ident, true);
      AnchorHasNorad(w.sats, rows, ident, a);
      if Link(a, ident) in planned { PlannedStays(w, rows, churned, Link(a, ident)); }
    }
  }

  lemma SettledLinkEnds(w: Crosswalk, rows: seq<GcatRow>, churned: set<(string, string)>, sat: SatId,
                        ident: Ident)
    requires NightDone(w, rows, churned) && AllHeld(w, rows) && AllSettled(w, rows, churned)
    ensures var done := NightOf(w, rows, churned);
      && (Live(done.links, sat, ident) <==> Live(w.links, sat, ident))
      && (Row(sat, ident, false) in done.links <==> Row(sat, ident, false) in w.links)
  {
    var planned := Planned(w, rows);
    HeldNight(w, rows);
    NightEnds(w, rows, churned, sat, ident);
    LinkAllMember(w.links, planned, sat, ident, true);
    LinkAllMember(w.links, planned, sat, ident, false);
    var r := Row(sat, ident, true);
    if r in w.links {
      NoneMovedByPlan(w, rows, churned, sat, ident);
      assert r !in ContestedLinks(w.links, w.sats, churned);
    } else if Link(sat, ident) in planned {
      PlannedStays(w, rows, churned, Link(sat, ident));
      RetiredAgain(w, rows, churned, sat, ident);
    }
  }

  /** Exactly when the next night changes nothing, on the tables any night leaves and for any snapshot:
      every row its piece decides has a holder, and the lowest one keeps the row's links as they are. */
  lemma NextNightIff(w: Crosswalk, rows: seq<GcatRow>, churned: set<(string, string)>)
    requires NightDone(w, rows, churned)
    ensures NightOf(w, rows, churned) == w <==> AllSettled(w, rows, churned)
  {
    HeldNight(w, rows);
    NightEnds(w, rows, churned, 0, GcatId(GcatRow("", None, None, None, false, None, None)));
    if NightOf(w, rows, churned) == w {
      forall row | row in rows && Waits(w.sats, row) ensures Settled(w, rows, churned, row) {
        var low := Lowest(Holders(w.links, row.cospar.value));
        WaitingIdents(row, GcatId(row));
        WaitingIdents(row, Cospar(row.cospar.value));
        StaysIfUnchanged(w, rows, churned, Link(low, GcatId(row)));
        StaysIfUnchanged(w, rows, churned, Link(low, Cospar(row.cospar.value)));
      }
    }
    if AllSettled(w, rows, churned) {
      assert AllHeld(w, rows);
      var done := NightOf(w, rows, churned);
      forall r: Row<Ident, bool> ensures r in done.links <==> r in w.links {
        SettledLinkEnds(w, rows, churned, r.sat, r.key);
        if r.data { assert r == Row(r.sat, r.key, true); } else { assert r == Row(r.sat, r.key, false); }
      }
      assert done.links == w.links;
      NextIdKept(w, rows, churned);
    }
  }

  lemma NextIdKept(w: Crosswalk, rows: seq<GcatRow>, churned: set<(string, string)>)
    requires NightDone(w, rows, churned) && AllHeld(w, rows)
    ensures NightOf(w, rows, churned).sats == w.sats && NightOf(w, rows, churned).nextId == w.nextId
  {
    HeldNight(w, rows);
  }

  // ----- the same question before the first night ---------------------------------------

  predicate Permanent(sats: map<SatId, Satellite>, s: SatId) { s in sats && sats[s].norad.Some? }

  function PermanentHolders(w: Crosswalk, value: string): set<SatId> {
    set s | s in Holders(w.links, value) && Permanent(w.sats, s)
  }

  /** A row its piece decides settles after one night: its COSPAR has not churned, or its lowest holder
      is anchored, or its lowest anchored holder has both links already. */
  ghost predicate Quiet(w: Crosswalk, churned: set<(string, string)>, row: GcatRow)
    requires row.cospar.Some?
  {
    var value := row.cospar.value;
    var lasting := PermanentHolders(w, value);
    || ("cospar", value) !in churned
    || (Held(w.links, row) && Permanent(w.sats, Lowest(Holders(w.links, value))))
    || (lasting != {} && Live(w.links, Lowest(lasting), Cospar(value))
        && Live(w.links, Lowest(lasting), GcatId(row)))
  }

  ghost predicate AllQuiet(w: Crosswalk, rows: seq<GcatRow>, churned: set<(string, string)>) {
    forall row :: row in rows && Waits(w.sats, row) ==> Quiet(w, churned, row)
  }

  /** No anchored row carries the piece of a row that its piece decides. */
  ghost predicate PiecesApart(sats: map<SatId, Satellite>, rows: seq<GcatRow>) {
    forall row, other :: row in rows && Waits(sats, row) && other in rows && Anchored(sats, other) ==>
      other.cospar != row.cospar
  }

  predicate IsPiece(i: Ident, value: string) { i.idType == "cospar" && i.value == value }

  lemma HoldersLinkAll(t: Identifiers, links: set<Link>, value: string, s: SatId)
    ensures s in Holders(LinkAll(t, links), value) <==>
      s in Holders(t, value) || exists i :: Link(s, i) in links && IsPiece(i, value)
  {
    var after := LinkAll(t, links);
    if s in Holders(after, value) {
      var r :| r in after && r.key.idType == "cospar" && r.key.value == value && r.data && r.sat == s;
      assert r == Row(s, r.key, true);
      LinkAllMember(t, links, s, r.key, true);
      if Link(s, r.key) in links { assert IsPiece(r.key, value); }
    }
    if s in Holders(t, value) {
      var r :| r in t && r.key.idType == "cospar" && r.key.value == value && r.data && r.sat == s;
      assert r == Row(s, r.key, true);
      LinkAllMember(t, links, s, r.key, true);
      assert r in after;
    }
    if exists i :: Link(s, i) in links && IsPiece(i, value) {
      var i :| Link(s, i) in links && IsPiece(i, value);
      var r := Row(s, i, true);
      LinkAllMember(t, links, s, i, true);
      assert r in after && r.key == i;
    }
  }

  /** The links of the waiting rows, each to the satellite picked for its piece. */
  ghost function Picked(sats: map<SatId, Satellite>, rows: seq<GcatRow>, pick: map<string, SatId>): set<Link> {
    set row, i | row in rows && Waits(sats, row) && row.cospar.value in pick && i in Idents(row)
      :: Link(pick[row.cospar.value], i)
  }

  /** The lowest holder, or a new satellite. */
  ghost predicate RightPick(w: Crosswalk, after: Crosswalk, value: string, sat: SatId) {
    var held := Holders(w.links, value);
    && sat in after.sats
    && if held != {} then sat == Lowest(held) else sat !in w.sats && after.sats[sat].norad.None?
  }

  ghost predicate PicksFor(w: Crosswalk, after: Crosswalk, rows: seq<GcatRow>, pick: map<string, SatId>) {
    && (forall row :: row in rows && Waits(w.sats, row) ==> row.cospar.value in pick)
    && (forall v :: v in pick ==> RightPick(w, after, v, pick[v]))
    && (forall v :: v in pick ==> exists row :: row in rows && Waits(w.sats, row) && row.cospar.value == v)
  }

  /** Idents of an anchored row are no waiting row's. */
  lemma ClaimsApart(sats: map<SatId, Satellite>, rows: seq<GcatRow>, row: GcatRow, c: Link)
    requires PiecesApart(sats, rows) && row in rows && Waits(sats, row) && c in Claims(sats, rows)
    ensures !IsPiece(c.ident, row.cospar.value)
    ensures Snapshot(rows) ==> c.ident != GcatId(row)
  {
    var other, s, i :| other in rows && s in WithNorad(sats, Number(other)) && i in Idents(other)
      && c == Link(s, i);
    assert Anchored(sats, other);
    assert "gcat_id"[0] == 'g' && "cospar"[0] == 'c' && "name_gcat"[0] == 'n';
    if Snapshot(rows) && row.jcat == other.jcat { SameRow(rows, row, other); }
  }

  lemma PickedPieces(sats: map<SatId, Satellite>, rows: seq<GcatRow>, pick: map<string, SatId>, c: Link,
                     value: string)
    requires c in Picked(sats, rows, pick) && IsPiece(c.ident, value)
    ensures value in pick && c.sat == pick[value] && c.ident == Cospar(value)
  {
    var row, i :| row in rows && Waits(sats, row) && row.cospar.value in pick && i in Idents(row)
      && c == Link(pick[row.cospar.value], i);
    WaitingIdents(row, i);
    assert "gcat_id"[0] == 'g' && "cospar"[0] == 'c';
  }

  /** Who holds a waiting row's piece once claims and picks are linked. */
  lemma HoldersWithPicks(w: Crosswalk, rows: seq<GcatRow>, claims: set<Link>, pick: map<string, SatId>,
                         row: GcatRow, s: SatId)
    requires PiecesApart(w.sats, rows) && claims <= Claims(w.sats, rows)
    requires row in rows && Waits(w.sats, row)
    ensures s in Holders(LinkAll(w.links, claims + Picked(w.sats, rows, pick)), row.cospar.value) <==>
      || s in Holders(w.links, row.cospar.value)
      || (row.cospar.value in pick && s == pick[row.cospar.value])
  {
    var value := row.cospar.value;
    var links := claims + Picked(w.sats, rows, pick);
    WaitingIdents(row, Cospar(value));
    assert value in pick ==> Link(pick[value], Cospar(value)) in Picked(w.sats, rows, pick);
    HoldersLinkAll(w.links, links, value, s);
    forall i | Link(s, i) in links && IsPiece(i, value) ensures value in pick && s == pick[value] {
      if Link(s, i) in claims {
        ClaimsApart(w.sats, rows, row, Link(s, i));
      } else {
        PickedPieces(w.sats, rows, pick, Link(s, i), value);
      }
    }
    if value in pick && s == pick[value] { assert IsPiece(Cospar(value), value); }
  }

  /** The key-number and piece pass on its own: claims for the anchored rows, one pick for each piece of
      the waiting ones, whatever the order of the rows. */
  lemma {:induction false} PassPicks(w: Crosswalk, rows: seq<GcatRow>) returns (pick: map<string, SatId>)
    requires Sound(w) && PiecesApart(w.sats, rows)
    requires forall row :: row in rows ==> PieceOk(row) && row.norad.None?
    ensures PicksFor(w, CosparAll(w, rows), rows, pick)
    ensures CosparAll(w, rows).links == LinkAll(w.links, Claims(w.sats, rows) + Picked(w.sats, rows, pick))
  {
    if rows == [] {
      pick := map[];
      assert Claims(w.sats, rows) + Picked(w.sats, rows, pick) == {};
      LinkAllLiveIsNothing(w.links, {});
      return;
    }
    var front, last := rows[..|rows| - 1], rows[|rows| - 1];
    assert rows == front + [last] && last in rows;
    assert forall row :: row in front ==> row in rows;
    var before := PassPicks(w, front);
    var mid := CosparAll(w, front);
    CosparAllSound(w, front);
    AnchoredAsBefore(w.sats, mid.sats, last);
    if Waits(w.sats, last) {
      pick := before[last.cospar.value := NextSat(mid, last)];
      PickStep(w, rows, front, last, mid, before);
      WaitingLinks(w, front, last, mid, before);
    } else {
      pick := before;
      NoPickStep(w, rows, front, last, mid, before);
    }
  }

  lemma WaitingLinks(w: Crosswalk, front: seq<GcatRow>, last: GcatRow, mid: Crosswalk,
                     before: map<string, SatId>)
    requires Waits(w.sats, last) && Sound(mid) && !Anchored(mid.sats, last)
    requires forall row :: row in front && Waits(w.sats, row) ==> row.cospar.value in before
    requires last.cospar.value in before ==> before[last.cospar.value] == NextSat(mid, last)
    requires mid.links == LinkAll(w.links, Claims(w.sats, front) + Picked(w.sats, front, before))
    ensures var pick := before[last.cospar.value := NextSat(mid, last)];
      CosparStep(mid, last).links
        == LinkAll(w.links, Claims(w.sats, front + [last]) + Picked(w.sats, front + [last], pick))
  {
    WaitsStep(mid, last);
    PickStepLinks(w, front, last, before, before[last.cospar.value := NextSat(mid, last)]);
  }

  lemma NoPickStep(w: Crosswalk, rows: seq<GcatRow>, front: seq<GcatRow>, last: GcatRow, mid: Crosswalk,
                   pick: map<string, SatId>)
    requires Sound(w) && rows == front + [last] && !Waits(w.sats, last) && PieceOk(last) && last.norad.None?
    requires Grows(w.sats, mid.sats) && forall s :: s in mid.sats && s !in w.sats ==> mid.sats[s].norad.None?
    requires PicksFor(w, mid, front, pick)
    requires mid.links == LinkAll(w.links, Claims(w.sats, front) + Picked(w.sats, front, pick))
    ensures PicksFor(w, CosparStep(mid, last), rows, pick)
    ensures CosparStep(mid, last).links == LinkAll(w.links, Claims(w.sats, rows) + Picked(w.sats, rows, pick))
  {
    var step := Claims(w.sats, [last]);
    AnchoredAsBefore(w.sats, mid.sats, last);
    ClaimsAsBefore(w.sats, mid.sats, [last]);
    PickedAppend(w.sats, front, last, pick, pick);
    ClaimsAppend(w.sats, front, last);
    if !Anchored(w.sats, last) {
      WaitsClaimsNothing(w.sats, last);
      LinkAllNothing(mid.links);
    }
    Regroup(w.links, Claims(w.sats, front), Picked(w.sats, front, pick), step, {});
    PicksForAppend(w, mid, CosparStep(mid, last), front, last, pick, pick);
  }

  lemma Regroup(t: Identifiers, claims: set<Link>, picked: set<Link>, claim: set<Link>, step: set<Link>)
    ensures LinkAll(LinkAll(t, claims + picked), claim + step) == LinkAll(t, (claims + claim) + (picked + step))
    ensures claim + {} == claim && {} + step == step
  {
    LinkAllTwice(t, claims + picked, claim + step);
    assert (claims + picked) + (claim + step) == (claims + claim) + (picked + step);
  }

  lemma WaitsClaimsNothing(sats: map<SatId, Satellite>, row: GcatRow)
    requires !Anchored(sats, row)
    ensures Claims(sats, [row]) == {}
  {
  }

  lemma LinkAllNothing(t: Identifiers)
    ensures LinkAll(t, {}) == t
  {
  }

  lemma PicksForAppend(w: Crosswalk, mid: Crosswalk, after: Crosswalk, front: seq<GcatRow>, last: GcatRow,
                       before: map<string, SatId>, pick: map<string, SatId>)
    requires PicksFor(w, mid, front, before) && Grows(mid.sats, after.sats)
    requires if Waits(w.sats, last) then
        last.cospar.value in pick && pick == before[last.cospar.value := pick[last.cospar.value]]
        && RightPick(w, after, last.cospar.value, pick[last.cospar.value])
      else pick == before
    ensures PicksFor(w, after, front + [last], pick)
  {
    var rows := front + [last];
    assert forall row :: row in rows <==> row in front || row == last;
    forall v | v in pick ensures RightPick(w, after, v, pick[v]) {
      if !(Waits(w.sats, last) && v == last.cospar.value) { assert RightPick(w, mid, v, before[v]); }
    }
    forall v | v in pick ensures exists row :: row in rows && Waits(w.sats, row) && row.cospar.value == v {
      if !(Waits(w.sats, last) && v == last.cospar.value) {
        var row :| row in front && Waits(w.sats, row) && row.cospar.value == v;
        assert row in rows;
      } else {
        assert last in rows;
      }
    }
  }

  lemma ClaimsAppend(sats: map<SatId, Satellite>, front: seq<GcatRow>, last: GcatRow)
    ensures Claims(sats, front + [last]) == Claims(sats, front) + Claims(sats, [last])
  {
    var all := front + [last];
    assert forall row :: row in all <==> row in front || row in [last];
  }

  lemma PickedAppend(sats: map<SatId, Satellite>, front: seq<GcatRow>, last: GcatRow,
                     before: map<string, SatId>, pick: map<string, SatId>)
    requires forall v :: v in before ==> v in pick && pick[v] == before[v]
    requires forall row :: row in front && Waits(sats, row) ==> row.cospar.value in before
    ensures Picked(sats, front + [last], pick) == Picked(sats, front, before) +
      if Waits(sats, last) && last.cospar.value in pick then LinksTo(last, pick[last.cospar.value]) else {}
  {
    var all := front + [last];
    assert forall row :: row in all <==> row in front || row == last;
  }

  lemma PickStep(w: Crosswalk, rows: seq<GcatRow>, front: seq<GcatRow>, last: GcatRow, mid: Crosswalk,
                 before: map<string, SatId>)
    requires Sound(w) && PiecesApart(w.sats, rows) && rows == front + [last] && Waits(w.sats, last)
    requires Sound(mid) && Grows(w.sats, mid.sats) && !Anchored(mid.sats, last)
    requires PicksFor(w, mid, front, before)
    requires mid.links == LinkAll(w.links, Claims(w.sats, front) + Picked(w.sats, front, before))
    ensures PicksFor(w, CosparStep(mid, last), front + [last],
                     before[last.cospar.value := NextSat(mid, last)])
    ensures last.cospar.value in before ==> before[last.cospar.value] == NextSat(mid, last)
  {
    SatPicked(w, rows, front, last, mid, before);
    WaitsStep(mid, last);
    PicksForAppend(w, mid, CosparStep(mid, last), front, last, before,
                   before[last.cospar.value := NextSat(mid, last)]);
  }

  /** Where the pass links a waiting row. */
  ghost function NextSat(mid: Crosswalk, last: GcatRow): SatId
    requires last.cospar.Some?
  {
    var held := Holders(mid.links, last.cospar.value);
    if held != {} then Lowest(held) else mid.nextId
  }

  lemma WaitsStep(mid: Crosswalk, last: GcatRow)
    requires Sound(mid) && Waits(mid.sats, last)
    ensures Grows(mid.sats, CosparStep(mid, last).sats)
    ensures CosparStep(mid, last).links == LinkAll(mid.links, LinksTo(last, NextSat(mid, last)))
  {
  }

  lemma PickStepLinks(w: Crosswalk, front: seq<GcatRow>, last: GcatRow, before: map<string, SatId>,
                      pick: map<string, SatId>)
    requires Waits(w.sats, last) && last.cospar.value in pick
    requires forall v :: v in before ==> v in pick && pick[v] == before[v]
    requires forall row :: row in front && Waits(w.sats, row) ==> row.cospar.value in before
    ensures LinkAll(LinkAll(w.links, Claims(w.sats, front) + Picked(w.sats, front, before)),
                    LinksTo(last, pick[last.cospar.value]))
         == LinkAll(w.links, Claims(w.sats, front + [last]) + Picked(w.sats, front + [last], pick))
  {
    PickedAppend(w.sats, front, last, before, pick);
    ClaimsAppend(w.sats, front, last);
    WaitsClaimsNothing(w.sats, last);
    Regroup(w.links, Claims(w.sats, front), Picked(w.sats, front, before), {},
            LinksTo(last, pick[last.cospar.value]));
  }

  /** The satellite a waiting row is linked to: the one picked for its piece already, or the lowest
      holder from before the pass, or a new one. */
  lemma SatPicked(w: Crosswalk, rows: seq<GcatRow>, front: seq<GcatRow>, last: GcatRow, mid: Crosswalk,
                  before: map<string, SatId>)
    requires Sound(w) && PiecesApart(w.sats, rows) && rows == front + [last] && Waits(w.sats, last)
    requires Sound(mid) && Grows(w.sats, mid.sats) && !Anchored(mid.sats, last)
    requires PicksFor(w, mid, front, before)
    requires mid.links == LinkAll(w.links, Claims(w.sats, front) + Picked(w.sats, front, before))
    ensures last.cospar.value in before ==> NextSat(mid, last) == before[last.cospar.value]
    ensures RightPick(w, CosparStep(mid, last), last.cospar.value, NextSat(mid, last))
  {
    var value := last.cospar.value;
    var held := Holders(mid.links, value);
    forall s ensures s in held <==>
      s in Holders(w.links, value) || (value in before && s == before[value])
    {
      HoldersBefore(w, rows, front, last, before, s);
    }
    HoldersExist(mid, value);
    WaitsStep(mid, last);
    if value in before {
      assert RightPick(w, mid, value, before[value]);
      LowestIsPicked(Holders(w.links, value), held, before[value]);
    } else {
      assert held == Holders(w.links, value);
      NewSatIsRight(w, mid, last);
    }
  }

  lemma NewSatIsRight(w: Crosswalk, mid: Crosswalk, last: GcatRow)
    requires Waits(mid.sats, last) && Sound(mid) && Grows(w.sats, mid.sats)
    requires Holders(mid.links, last.cospar.value) == Holders(w.links, last.cospar.value)
    ensures RightPick(w, CosparStep(mid, last), last.cospar.value, NextSat(mid, last))
  {
    HoldersExist(mid, last.cospar.value);
  }

  lemma LowestIsPicked(was: set<SatId>, held: set<SatId>, p: SatId)
    requires was != {} ==> p == Lowest(was)
    requires forall s :: s in held <==> s in was || s == p
    ensures held != {} && Lowest(held) == p
  {
    assert p in held;
  }

  lemma HoldersBefore(w: Crosswalk, rows: seq<GcatRow>, front: seq<GcatRow>, last: GcatRow,
                      before: map<string, SatId>, s: SatId)
    requires PiecesApart(w.sats, rows) && rows == front + [last] && Waits(w.sats, last)
    requires forall v :: v in before ==>
      exists row :: row in front && Waits(w.sats, row) && row.cospar.value == v
    ensures var made := Claims(w.sats, front) + Picked(w.sats, front, before);
      s in Holders(LinkAll(w.links, made), last.cospar.value) <==>
        s in Holders(w.links, last.cospar.value) ||
        (last.cospar.value in before && s == before[last.cospar.value])
  {
    var value := last.cospar.value;
    var links := Claims(w.sats, front) + Picked(w.sats, front, before);
    assert last in rows && forall row :: row in front ==> row in rows;
    ClaimsAppend(w.sats, front, last);
    HoldersLinkAll(w.links, links, value, s);
    forall i | Link(s, i) in links && IsPiece(i, value) ensures value in before && s == before[value] {
      if Link(s, i) in Claims(w.sats, front) {
        ClaimsApart(w.sats, rows, last, Link(s, i));
      } else {
        PickedPieces(w.sats, front, before, Link(s, i), value);
      }
    }
    if value in before && s == before[value] {
      var row :| row in front && Waits(w.sats, row) && row.cospar.value == value;
      WaitingIdents(row, Cospar(value));
      assert Link(s, Cospar(value)) in Picked(w.sats, front, before) && IsPiece(Cospar(value), value);
    }
  }

  /** What the link passes of a night do: claims for the anchored rows, picks for the waiting ones. */
  ghost predicate HasPicks(w: Crosswalk, rows: seq<GcatRow>, pick: map<string, SatId>)
    requires Snapshot(rows)
  {
    && PicksFor(w, AfterLinks(w, rows), rows, pick)
    && AfterLinks(w, rows).links == LinkAll(w.links, Claims(w.sats, rows) + Picked(w.sats, rows, pick))
  }

  /** Both link passes of a night. */
  lemma NightPicks(w: Crosswalk, rows: seq<GcatRow>) returns (pick: map<string, SatId>)
    requires Ready(w, rows) && PiecesApart(w.sats, rows)
    ensures HasPicks(w, rows, pick)
  {
    var first := Claims(w.sats, WithNoradOnly(rows));
    var rest := WithoutNorad(rows);
    var start := w.(links := LinkAll(w.links, first));
    LinkAllUnique(w.links, first);
    LinkAllReferences(w.links, first, w.sats.Keys);
    pick := PassPicks(start, rest);
    ClaimsSplit(w.sats, rows);
    assert Picked(w.sats, rest, pick) == Picked(w.sats, rows, pick) by {
      assert forall row :: Waits(w.sats, row) ==> (row in rest <==> row in rows);
    }
    Regroup(w.links, first, {}, Claims(w.sats, rest), Picked(w.sats, rows, pick));
    assert first + {} == first && {} + Picked(w.sats, rows, pick) == Picked(w.sats, rows, pick);
    var after := AfterLinks(w, rows);
    forall v | v in pick ensures RightPick(w, after, v, pick[v]) {
      assert RightPick(start, after, v, pick[v]);
      var row :| row in rest && Waits(start.sats, row) && row.cospar.value == v;
      SameHolders(w, rows, first, row);
    }
    forall v | v in pick ensures exists row :: row in rows && Waits(w.sats, row) && row.cospar.value == v {
      var row :| row in rest && Waits(start.sats, row) && row.cospar.value == v;
      assert row in rows;
    }
  }

  lemma SameHolders(w: Crosswalk, rows: seq<GcatRow>, claims: set<Link>, row: GcatRow)
    requires PiecesApart(w.sats, rows) && claims <= Claims(w.sats, rows)
    requires row in rows && Waits(w.sats, row)
    ensures Holders(LinkAll(w.links, claims), row.cospar.value) == Holders(w.links, row.cospar.value)
  {
    var value := row.cospar.value;
    forall s ensures s in Holders(LinkAll(w.links, claims), value) <==> s in Holders(w.links, value) {
      HoldersLinkAll(w.links, claims, value, s);
      forall i | Link(s, i) in claims ensures !IsPiece(i, value) {
        ClaimsApart(w.sats, rows, row, Link(s, i));
      }
    }
  }

  /** A waiting row's key and piece have no anchor. */
  lemma NoAnchors(sats: map<SatId, Satellite>, rows: seq<GcatRow>, row: GcatRow, ident: Ident)
    requires Snapshot(rows) && PiecesApart(sats, rows) && row in rows && Waits(sats, row)
    requires IsPiece(ident, row.cospar.value) || ident == GcatId(row)
    ensures KeyAnchors(sats, rows, ident) == {}
  {
    forall other, s | other in rows && s in WithNorad(sats, Number(other))
      ensures ident != GcatId(other) && !(other.cospar.Some? && ident == Cospar(other.cospar.value))
    {
      assert Anchored(sats, other);
      assert "gcat_id"[0] == 'g' && "cospar"[0] == 'c';
      if row.jcat == other.jcat { SameRow(rows, row, other); }
    }
  }

  predicate Fleeting(sats: map<SatId, Satellite>, churned: set<(string, string)>, value: string, s: SatId) {
    ("cospar", value) in churned && s in sats && sats[s].norad.None?
  }

  lemma NotMoved(t: Identifiers, r: Row<Ident, bool>)
    ensures !Moved(t, {}, r)
  {
  }

  /** Who holds a waiting row's piece after the night. */
  lemma HoldersAfter(w: Crosswalk, rows: seq<GcatRow>, churned: set<(string, string)>,
                     pick: map<string, SatId>, row: GcatRow, s: SatId)
    requires Ready(w, rows) && PiecesApart(w.sats, rows) && row in rows && Waits(w.sats, row)
    requires HasPicks(w, rows, pick)
    ensures var done := NightOf(w, rows, churned);
      s in Holders(done.links, row.cospar.value) <==>
        (s in Holders(w.links, row.cospar.value) || s == pick[row.cospar.value]) &&
        !Fleeting(done.sats, churned, row.cospar.value, s)
  {
    var value := row.cospar.value;
    var linked, done := AfterLinks(w, rows), NightOf(w, rows, churned);
    AfterLinksFacts(w, rows);
    ClaimsAsBefore(w.sats, linked.sats, rows);
    HoldersWithPicks(w, rows, Claims(w.sats, rows), pick, row, s);
    forall i | IsPiece(i, value)
      ensures Live(done.links, s, i) <==> Live(linked.links, s, i) && !Fleeting(done.sats, churned, value, s)
    {
      NightEnds(w, rows, churned, s, i);
      NoAnchors(w.sats, rows, row, i);
      NotMoved(linked.links, Row(s, i, true));
    }
    HoldsBy(done.links, value, s);
    HoldsBy(linked.links, value, s);
  }

  lemma HoldsBy(t: Identifiers, value: string, s: SatId)
    ensures s in Holders(t, value) <==> exists i :: IsPiece(i, value) && Live(t, s, i)
  {
    if s in Holders(t, value) {
      var r :| r in t && r.key.idType == "cospar" && r.key.value == value && r.data && r.sat == s;
      assert r == Row(s, r.key, true) && IsPiece(r.key, value);
    }
    if exists i :: IsPiece(i, value) && Live(t, s, i) {
      var i :| IsPiece(i, value) && Live(t, s, i);
      assert Row(s, i, true).key == i;
    }
  }

  /** A waiting row's two links after the night. */
  lemma LinkAfter(w: Crosswalk, rows: seq<GcatRow>, churned: set<(string, string)>, pick: map<string, SatId>,
                  row: GcatRow, s: SatId, ident: Ident)
    requires Ready(w, rows) && PiecesApart(w.sats, rows) && row in rows && Waits(w.sats, row)
    requires HasPicks(w, rows, pick)
    requires ident == Cospar(row.cospar.value) || ident == GcatId(row)
    ensures var done := NightOf(w, rows, churned);
      var made := Live(w.links, s, ident) || s == pick[row.cospar.value];
      var lost := Contested(done.sats, churned, Row(s, ident, true));
      && (Live(done.links, s, ident) <==> made && !lost)
      && (made && lost ==> Row(s, ident, false) in done.links)
  {
    var value := row.cospar.value;
    var linked := AfterLinks(w, rows);
    var made := Claims(w.sats, rows) + Picked(w.sats, rows, pick);
    AfterLinksFacts(w, rows);
    ClaimsAsBefore(w.sats, linked.sats, rows);
    NightEnds(w, rows, churned, s, ident);
    NoAnchors(w.sats, rows, row, ident);
    NotMoved(linked.links, Row(s, ident, true));
    LinkAllMember(w.links, made, s, ident, true);
    WaitingIdents(row, ident);
    if s == pick[value] { assert Link(s, ident) in Picked(w.sats, rows, pick); }
    if Link(s, ident) in made && s != pick[value] {
      if Link(s, ident) in Claims(w.sats, rows) {
        ClaimsApart(w.sats, rows, row, Link(s, ident));
      } else {
        PickedKey(w.sats, rows, pick, row, Link(s, ident));
      }
    }
  }

  lemma PickedKey(sats: map<SatId, Satellite>, rows: seq<GcatRow>, pick: map<string, SatId>, row: GcatRow,
                  c: Link)
    requires Snapshot(rows) && row in rows && Waits(sats, row) && c in Picked(sats, rows, pick)
    requires c.ident == Cospar(row.cospar.value) || c.ident == GcatId(row)
    ensures row.cospar.value in pick && c.sat == pick[row.cospar.value]
  {
    var other, i :| other in rows && Waits(sats, other) && other.cospar.value in pick && i in Idents(other)
      && c == Link(pick[other.cospar.value], i);
    WaitingIdents(other, i);
    assert "gcat_id"[0] == 'g' && "cospar"[0] == 'c';
    if i == GcatId(other) { SameRow(rows, row, other); }
  }

  lemma WaitsAfter(w: Crosswalk, rows: seq<GcatRow>, churned: set<(string, string)>)
    requires Ready(w, rows)
    ensures forall row: GcatRow :: Waits(NightOf(w, rows, churned).sats, row) <==> Waits(w.sats, row)
    ensures PiecesApart(NightOf(w, rows, churned).sats, rows) <==> PiecesApart(w.sats, rows)
  {
    NightLeavesDone(w, rows, churned);
    forall row: GcatRow
      ensures Anchored(NightOf(w, rows, churned).sats, row) <==> Anchored(w.sats, row)
    {
      AnchoredAsBefore(w.sats, NightOf(w, rows, churned).sats, row);
    }
  }

  /** A satellite that keeps the piece through the night stays the lowest holder. */
  lemma KeptPick(w: Crosswalk, rows: seq<GcatRow>, churned: set<(string, string)>, pick: map<string, SatId>,
                 row: GcatRow)
    requires Ready(w, rows) && PiecesApart(w.sats, rows) && row in rows && Waits(w.sats, row)
    requires HasPicks(w, rows, pick)
    requires !Fleeting(NightOf(w, rows, churned).sats, churned, row.cospar.value, pick[row.cospar.value])
    ensures Settled(NightOf(w, rows, churned), rows, churned, row)
  {
    var value, done := row.cospar.value, NightOf(w, rows, churned);
    HoldersLeft(w, rows, churned, pick, row);
    LowestKept(w, done, churned, value, pick[value]);
    LinkAfter(w, rows, churned, pick, row, pick[value], Cospar(value));
    LinkAfter(w, rows, churned, pick, row, pick[value], GcatId(row));
  }

  lemma LowestKept(w: Crosswalk, done: Crosswalk, churned: set<(string, string)>, value: string, p: SatId)
    requires RightPick(w, done, value, p) && !Fleeting(done.sats, churned, value, p)
    requires Holders(done.links, value) ==
      set s | s in Holders(w.links, value) + {p} && !Fleeting(done.sats, churned, value, s)
    ensures Holders(done.links, value) != {} && Lowest(Holders(done.links, value)) == p
  {
    assert p in Holders(done.links, value);
  }

  /** The holders a night leaves, as a set. */
  lemma HoldersLeft(w: Crosswalk, rows: seq<GcatRow>, churned: set<(string, string)>,
                    pick: map<string, SatId>, row: GcatRow)
    requires Ready(w, rows) && PiecesApart(w.sats, rows) && row in rows && Waits(w.sats, row)
    requires HasPicks(w, rows, pick)
    ensures var (value, done) := (row.cospar.value, NightOf(w, rows, churned));
      && value in pick && RightPick(w, done, value, pick[value])
      && Holders(done.links, value) ==
        set s | s in Holders(w.links, value) + {pick[value]} && !Fleeting(done.sats, churned, value, s)
  {
    var value, done := row.cospar.value, NightOf(w, rows, churned);
    forall s ensures s in Holders(done.links, value) <==>
      (s in Holders(w.links, value) || s == pick[value]) && !Fleeting(done.sats, churned, value, s)
    {
      HoldersAfter(w, rows, churned, pick, row, s);
    }
    assert RightPick(w, AfterLinks(w, rows), value, pick[value]);
    NightEnds(w, rows, churned, 0, GcatId(row));
  }

  /** Which holders a churned piece keeps: the anchored ones. */
  lemma ChurnedHolders(w: Crosswalk, rows: seq<GcatRow>, churned: set<(string, string)>,
                       pick: map<string, SatId>, row: GcatRow)
    requires Ready(w, rows) && PiecesApart(w.sats, rows) && row in rows && Waits(w.sats, row)
    requires HasPicks(w, rows, pick) && ("cospar", row.cospar.value) in churned
    ensures var (value, done) := (row.cospar.value, NightOf(w, rows, churned));
      && Holders(done.links, value) == PermanentHolders(w, value)
      && PermanentHolders(done, value) == PermanentHolders(w, value)
  {
    HoldersLeft(w, rows, churned, pick, row);
    NightLeavesDone(w, rows, churned);
    ChurnedSets(w, NightOf(w, rows, churned), churned, row.cospar.value, pick[row.cospar.value]);
  }

  lemma ChurnedSets(w: Crosswalk, done: Crosswalk, churned: set<(string, string)>, value: string, p: SatId)
    requires Sound(w) && Sound(done) && Grows(w.sats, done.sats) && ("cospar", value) in churned
    requires RightPick(w, done, value, p)
    requires Holders(done.links, value) ==
      set s | s in Holders(w.links, value) + {p} && !Fleeting(done.sats, churned, value, s)
    ensures Holders(done.links, value) == PermanentHolders(w, value)
    ensures PermanentHolders(done, value) == PermanentHolders(w, value)
  {
    HoldersExist(w, value);
    forall s ensures s in Holders(done.links, value) <==> s in PermanentHolders(w, value) {
      if s == p && Holders(w.links, value) != {} { assert p in Holders(w.links, value); }
    }
  }

  /** When the picked satellite loses the piece, the anchored holders are left. */
  lemma LostPick(w: Crosswalk, rows: seq<GcatRow>, churned: set<(string, string)>, pick: map<string, SatId>,
                 row: GcatRow)
    requires Ready(w, rows) && PiecesApart(w.sats, rows) && row in rows && Waits(w.sats, row)
    requires HasPicks(w, rows, pick)
    requires Fleeting(NightOf(w, rows, churned).sats, churned, row.cospar.value, pick[row.cospar.value])
    ensures Settled(NightOf(w, rows, churned), rows, churned, row) <==> Quiet(w, churned, row)
  {
    var value, done := row.cospar.value, NightOf(w, rows, churned);
    var lasting := PermanentHolders(w, value);
    ChurnedHolders(w, rows, churned, pick, row);
    HoldersLeft(w, rows, churned, pick, row);
    NightLeavesDone(w, rows, churned);
    LostIsFleeting(w, done, value, pick[value]);
    if lasting != {} {
      LostPickLinks(w, rows, churned, pick, row, Lowest(lasting));
    }
    LostPickLogic(w, done, rows, churned, row);
  }

  lemma LostPickLogic(w: Crosswalk, done: Crosswalk, rows: seq<GcatRow>, churned: set<(string, string)>,
                      row: GcatRow)
    requires row.cospar.Some? && ("cospar", row.cospar.value) in churned
    requires Holders(done.links, row.cospar.value) == PermanentHolders(w, row.cospar.value)
    requires Held(w.links, row) ==> !Permanent(w.sats, Lowest(Holders(w.links, row.cospar.value)))
    requires PermanentHolders(w, row.cospar.value) != {} ==>
      forall i :: i == Cospar(row.cospar.value) || i == GcatId(row) ==>
        (Stays(done, rows, churned, Lowest(PermanentHolders(w, row.cospar.value)), i) <==>
          Live(w.links, Lowest(PermanentHolders(w, row.cospar.value)), i))
    ensures Settled(done, rows, churned, row) <==> Quiet(w, churned, row)
  {
  }

  lemma LostIsFleeting(w: Crosswalk, done: Crosswalk, value: string, p: SatId)
    requires RightPick(w, done, value, p) && Grows(w.sats, done.sats) && done.sats[p].norad.None?
    ensures Holders(w.links, value) != {} ==> !Permanent(w.sats, Lowest(Holders(w.links, value)))
  {
  }

  lemma LostPickLinks(w: Crosswalk, rows: seq<GcatRow>, churned: set<(string, string)>,
                      pick: map<string, SatId>, row: GcatRow, low: SatId)
    requires Ready(w, rows) && PiecesApart(w.sats, rows) && row in rows && Waits(w.sats, row)
    requires HasPicks(w, rows, pick) && Permanent(w.sats, low)
    requires Fleeting(NightOf(w, rows, churned).sats, churned, row.cospar.value, pick[row.cospar.value])
    ensures forall i :: i == Cospar(row.cospar.value) || i == GcatId(row) ==>
      (Stays(NightOf(w, rows, churned), rows, churned, low, i) <==> Live(w.links, low, i))
  {
    var done := NightOf(w, rows, churned);
    NightLeavesDone(w, rows, churned);
    WaitsAfter(w, rows, churned);
    forall i | i == Cospar(row.cospar.value) || i == GcatId(row)
      ensures Stays(done, rows, churned, low, i) <==> Live(w.links, low, i)
    {
      LinkAfter(w, rows, churned, pick, row, low, i);
      StaysPermanent(done, rows, churned, row, low, i);
    }
  }

  lemma StaysPermanent(w: Crosswalk, rows: seq<GcatRow>, churned: set<(string, string)>, row: GcatRow, s: SatId,
                       ident: Ident)
    requires Snapshot(rows) && PiecesApart(w.sats, rows) && row in rows && Waits(w.sats, row)
    requires Permanent(w.sats, s) && (ident == Cospar(row.cospar.value) || ident == GcatId(row))
    ensures Stays(w, rows, churned, s, ident) <==> Live(w.links, s, ident)
  {
    NoAnchors(w.sats, rows, row, ident);
  }

  lemma SettledIffQuiet(w: Crosswalk, rows: seq<GcatRow>, churned: set<(string, string)>, row: GcatRow)
    requires Ready(w, rows) && PiecesApart(w.sats, rows) && row in rows && Waits(w.sats, row)
    ensures Settled(NightOf(w, rows, churned), rows, churned, row) <==> Quiet(w, churned, row)
  {
    var value, done := row.cospar.value, NightOf(w, rows, churned);
    var pick := NightPicks(w, rows);
    var p := pick[value];
    WaitsAfter(w, rows, churned);
    NightLeavesDone(w, rows, churned);
    if Fleeting(done.sats, churned, value, p) {
      LostPick(w, rows, churned, pick, row);
    } else {
      KeptPick(w, rows, churned, pick, row);
      assert RightPick(w, AfterLinks(w, rows), value, p);
      HoldersExist(w, value);
    }
  }

  /** The exact condition, on the tables before the first night: the second night leaves every satellite
      and every link as the first did if and only if every row its piece decides is quiet. */
  lemma SecondNightIff(w: Crosswalk, rows: seq<GcatRow>, churned: set<(string, string)>)
    requires Ready(w, rows) && PiecesApart(w.sats, rows)
    ensures Ready(NightOf(w, rows, churned), rows)
    ensures NightOf(NightOf(w, rows, churned), rows, churned) == NightOf(w, rows, churned)
       <==> AllQuiet(w, rows, churned)
  {
    NightLeavesDone(w, rows, churned);
    NextNightIff(NightOf(w, rows, churned), rows, churned);
    WaitsAfter(w, rows, churned);
    forall row | row in rows && Waits(w.sats, row)
      ensures Settled(NightOf(w, rows, churned), rows, churned, row) <==> Quiet(w, churned, row)
    {
      SettledIffQuiet(w, rows, churned, row);
    }
  }

  /** One row without an anchor, spelled out. */
  lemma OneRowSecondNightIff(w: Crosswalk, row: GcatRow, churned: set<(string, string)>)
    requires Sound(w) && PieceOk(row) && row.norad.None? && !Anchored(w.sats, row)
    ensures Snapshot([row])
    ensures NightOf(NightOf(w, [row], churned), [row], churned) == NightOf(w, [row], churned)
       <==> !row.standard || Quiet(w, churned, row)
  {
    assert row in [row];
    SecondNightIff(w, [row], churned);
  }

  /** Some anchored satellite holds the piece, or it has not churned. */
  predicate CanSettle(w: Crosswalk, churned: set<(string, string)>, row: GcatRow)
    requires row.cospar.Some?
  {
    ("cospar", row.cospar.value) !in churned || PermanentHolders(w, row.cospar.value) != {}
  }

  lemma QuietAfterIff(w: Crosswalk, rows: seq<GcatRow>, churned: set<(string, string)>, row: GcatRow)
    requires Ready(w, rows) && PiecesApart(w.sats, rows) && row in rows && Waits(w.sats, row)
    ensures Quiet(NightOf(w, rows, churned), churned, row) <==> CanSettle(w, churned, row)
    ensures CanSettle(NightOf(w, rows, churned), churned, row) <==> CanSettle(w, churned, row)
    ensures !CanSettle(w, churned, row) ==> !Held(NightOf(w, rows, churned).links, row)
  {
    var value, done := row.cospar.value, NightOf(w, rows, churned);
    var pick := NightPicks(w, rows);
    NightLeavesDone(w, rows, churned);
    if ("cospar", value) in churned {
      ChurnedHolders(w, rows, churned, pick, row);
    }
  }

  /** What a second night does not settle, a third settles if it ever settles: the third night changes
      nothing if and only if every waiting row's piece has not churned or is held by an anchored
      satellite. */
  lemma ThirdNightIff(w: Crosswalk, rows: seq<GcatRow>, churned: set<(string, string)>)
    requires Ready(w, rows) && PiecesApart(w.sats, rows)
    ensures Ready(NightOf(w, rows, churned), rows)
    ensures var twice := NightOf(NightOf(w, rows, churned), rows, churned);
      NightOf(twice, rows, churned) == twice <==>
        forall row :: row in rows && Waits(w.sats, row) ==> CanSettle(w, churned, row)
  {
    var once := NightOf(w, rows, churned);
    NightLeavesDone(w, rows, churned);
    WaitsAfter(w, rows, churned);
    SecondNightIff(once, rows, churned);
    forall row | row in rows && Waits(w.sats, row)
      ensures Quiet(once, churned, row) <==> CanSettle(w, churned, row)
    {
      QuietAfterIff(w, rows, churned, row);
    }
  }

  ghost function Nights(w: Crosswalk, rows: seq<GcatRow>, churned: set<(string, string)>, n: nat): Crosswalk
    requires Snapshot(rows)
    decreases n
  {
    if n == 0 then w else Nights(NightOf(w, rows, churned), rows, churned, n - 1)
  }

  /** A waiting row whose piece has churned and has no anchored holder. */
  ghost predicate Stuck(w: Crosswalk, rows: seq<GcatRow>, churned: set<(string, string)>, row: GcatRow) {
    && Ready(w, rows) && PiecesApart(w.sats, rows) && row in rows && Waits(w.sats, row)
    && !CanSettle(w, churned, row)
  }

  lemma StuckOnce(w: Crosswalk, rows: seq<GcatRow>, churned: set<(string, string)>, row: GcatRow)
    requires Stuck(w, rows, churned, row)
    ensures Stuck(NightOf(w, rows, churned), rows, churned, row)
  {
    WaitsAfter(w, rows, churned);
    NightLeavesDone(w, rows, churned);
    QuietAfterIff(w, rows, churned, row);
  }

  lemma {:induction false} StuckStays(w: Crosswalk, rows: seq<GcatRow>, churned: set<(string, string)>,
                                      row: GcatRow, n: nat)
    requires Stuck(w, rows, churned, row)
    ensures Stuck(Nights(w, rows, churned, n), rows, churned, row)
    decreases n
  {
    if n > 0 {
      StuckOnce(w, rows, churned, row);
      StuckStays(NightOf(w, rows, churned), rows, churned, row, n - 1);
    }
  }

  /** Otherwise no night is the last: whatever the tables after any number of nights, the second night from
      there creates a satellite. So from the second night on every one does. */
  lemma EveryNightCreates(w: Crosswalk, rows: seq<GcatRow>, churned: set<(string, string)>, row: GcatRow, n: nat)
    requires Stuck(w, rows, churned, row)
    ensures var now := Nights(w, rows, churned, n);
      var next := NightOf(now, rows, churned);
      |NightOf(next, rows, churned).sats| > |next.sats| >= |now.sats|
  {
    StuckStays(w, rows, churned, row, n);
    AnotherCreates(Nights(w, rows, churned, n), rows, churned, row);
  }

  lemma AnotherCreates(w: Crosswalk, rows: seq<GcatRow>, churned: set<(string, string)>, row: GcatRow)
    requires Stuck(w, rows, churned, row)
    ensures |NightOf(NightOf(w, rows, churned), rows, churned).sats| > |NightOf(w, rows, churned).sats|
    ensures |NightOf(w, rows, churned).sats| >= |w.sats|
  {
    var now := NightOf(w, rows, churned);
    WaitsAfter(w, rows, churned);
    NightLeavesDone(w, rows, churned);
    QuietAfterIff(w, rows, churned, row);
    UnheldCreates(now, rows, churned, row);
    SameOrMore(w.sats, now.sats);
  }

  lemma UnheldCreates(w: Crosswalk, rows: seq<GcatRow>, churned: set<(string, string)>, row: GcatRow)
    requires NightDone(w, rows, churned) && row in rows && Waits(w.sats, row) && !Held(w.links, row)
    ensures |NightOf(w, rows, churned).sats| > |w.sats|
  {
    HeldNight(w, rows);
    NightLeavesDone(w, rows, churned);
    NightEnds(w, rows, churned, 0, GcatId(row));
    MoreSats(w.sats, NightOf(w, rows, churned).sats);
  }

  lemma SameOrMore(a: map<SatId, Satellite>, b: map<SatId, Satellite>)
    requires Grows(a, b)
    ensures |a| <= |b|
  {
    var rest := b.Keys - a.Keys;
    forall s | s in a.Keys ensures s in b.Keys { assert s in a; }
    assert b.Keys == a.Keys + rest;
    assert |a.Keys| == |a| && |b.Keys| == |b|;
  }

  lemma MoreSats(a: map<SatId, Satellite>, b: map<SatId, Satellite>)
    requires Grows(a, b) && a != b
    ensures |a| < |b|
  {
    var rest := b.Keys - a.Keys;
    forall s | s in a.Keys ensures s in b.Keys { assert s in a; }
    assert b.Keys == a.Keys + rest;
    if rest == {} {
      assert b.Keys == a.Keys;
      forall s | s in b ensures s in a && a[s] == b[s] { assert s in b.Keys; }
    }
    assert |a.Keys| == |a| && |b.Keys| == |b|;
  }

  /** What the contested pass of a night takes, with the conditions written out: after the night no satellite
      without a NORAD has a current link under a churned GCAT id or COSPAR, and nothing else is lost
      to the pass: no link of a satellite with a NORAD, of another type, or of an unchurned key. */
  lemma ContestedPassTakes(w: Crosswalk, rows: seq<GcatRow>, churned: set<(string, string)>, s: SatId, i: Ident)
    requires Ready(w, rows)
    ensures var done := NightOf(w, rows, churned);
      var taken := (i.idType == "gcat_id" || i.idType == "cospar") && (i.idType, i.value) in churned
        && s in done.sats && done.sats[s].norad.None?;
      && (taken ==> Row(s, i, true) !in done.links)
      && (!taken ==> (Row(s, i, true) in done.links <==> Row(s, i, true) in AfterMoved(w, rows).links))
      && (taken && Row(s, i, true) in AfterMoved(w, rows).links ==> Row(s, i, false) in done.links)
  {
    AfterLinksFacts(w, rows);
    var linked, moved := AfterLinks(w, rows), AfterMoved(w, rows);
    RetireSound(linked, MovedKeys(linked.links, linked.sats, rows));
    RetireLive(moved.links, ContestedLinks(moved.links, moved.sats, churned));
  }

  /** A churned GCAT id on a provisional satellite expires. */
  lemma ChurnedGcatIdExpires()
    ensures var key := Ident("gcat_id", "X00001", "gcat");
      var w := Crosswalk(map[1 := Satellite(None, None, "x")], {Row(1, key, true)}, 2);
      var done := NightOf(w, [], {("gcat_id", "X00001")});
      Row(1, key, true) !in done.links && Row(1, key, false) in done.links
  {
    var key := Ident("gcat_id", "X00001", "gcat");
    var w := Crosswalk(map[1 := Satellite(None, None, "x")], {Row(1, key, true)}, 2);
    LinkAllLiveIsNothing(w.links, Claims(w.sats, WithNoradOnly([])));
    assert AfterLinks(w, []) == w;
    assert MovedKeys(w.links, w.sats, []) == {};
    RetireNothing(w.links);
    assert AfterMoved(w, []) == w;
    ContestedPassTakes(w, [], {("gcat_id", "X00001")}, 1, key);
  }

  lemma RetireNothing(t: Identifiers)
    ensures Retire(t, {}) == t
  {
  }

  /** On rows that are all anchored one night is enough, with all three passes. */
  lemma FullNightIsFixpoint(w: Crosswalk, rows: seq<GcatRow>, churned: set<(string, string)>)
    requires Ready(w, rows) && forall row :: row in rows ==> Anchored(w.sats, row)
    ensures Ready(NightOf(w, rows, churned), rows)
    ensures NightOf(NightOf(w, rows, churned), rows, churned) == NightOf(w, rows, churned)
  {
    SecondNightIff(w, rows, churned);
  }

  /** With all three passes, on rows that are all anchored: a key with one anchor ends the night there and
      nowhere else exactly when a row claims it there or it was there already. */
  lemma OneHolderAfterNightIff(w: Crosswalk, rows: seq<GcatRow>, churned: set<(string, string)>, ident: Ident,
                               a: SatId)
    requires Ready(w, rows) && forall row :: row in rows ==> Anchored(w.sats, row)
    requires ident.source == "gcat" && KeyAnchors(w.sats, rows, ident) == {a}
    ensures (forall s :: Live(NightOf(w, rows, churned).links, s, ident) <==> s == a)
       <==> Link(a, ident) in Claims(w.sats, rows) || Live(w.links, a, ident)
  {
    AnchoredLinks(w, rows);
    OneAnchorOneHolderIff(w.links, w.sats, rows, ident, a);
    AnchorHasNorad(w.sats, rows, ident, a);
    NightUnique(w.links, w.sats, rows);
    var linked := LinkAll(w.links, Claims(w.sats, rows));
    var night := Night(w.links, w.sats, rows);
    var done := NightOf(w, rows, churned);
    LinkAllMember(w.links, Claims(w.sats, rows), a, ident, true);
    forall s ensures Live(done.links, s, ident) <==>
      Live(night, s, ident) && !Contested(w.sats, churned, Row(s, ident, true))
    {
      NightEnds(w, rows, churned, s, ident);
      RetireMember(linked, MovedKeys(linked, w.sats, rows), s, ident, true);
    }
    assert !Contested(w.sats, churned, Row(a, ident, true));
  }

  /** On anchored rows the link passes make exactly the claims current. */
  lemma AnchoredLinks(w: Crosswalk, rows: seq<GcatRow>)
    requires Ready(w, rows) && forall row :: row in rows ==> Anchored(w.sats, row)
    ensures AfterLinks(w, rows) == w.(links := LinkAll(w.links, Claims(w.sats, rows)))
  {
    var first := Claims(w.sats, WithNoradOnly(rows));
    var start := w.(links := LinkAll(w.links, first));
    LinkAllUnique(w.links, first);
    CosparAllAnchored(start, WithoutNorad(rows));
    ClaimsSplit(w.sats, rows);
    LinkAllTwice(w.links, first, Claims(w.sats, WithoutNorad(rows)));
  }

  // ----- nights on the store ------------------------------------------------------------

  /** Every row of the snapshot is anchored, once the NORAD pass has created what it creates: by its
      own NORAD, or by a key number some satellite or some other row carries. */
  ghost predicate AllAnchored(sats: map<SatId, Satellite>, rows: seq<GcatRow>) {
    forall row :: row in rows && row.norad.None? ==>
      || Anchored(sats, row)
      || (row.number.Some? && exists other :: other in rows && other.norad == row.number)
  }

  lemma AnchoredAfterNoradPass(before: map<SatId, Satellite>, after: map<SatId, Satellite>, rows: seq<GcatRow>)
    requires AllAnchored(before, rows) && Grows(before, after)
    requires forall row :: row in rows && row.norad.Some? ==> Anchored(after, row)
    ensures forall row :: row in rows ==> Anchored(after, row)
  {
    forall row | row in rows && row.norad.None? ensures Anchored(after, row) {
      if Anchored(before, row) {
        var s :| s in WithNorad(before, Number(row));
        assert s in WithNorad(after, Number(row));
      } else {
        var other :| other in rows && other.norad == row.number;
        var s :| s in WithNorad(after, Number(other));
        assert s in WithNorad(after, Number(row));
      }
    }
  }

  /** One night. `start` is the crosswalk once the snapshot's NORADs have their satellites. */
  method RunNight(store: GraphStore, rows: seq<GcatRow>, churned: set<(string, string)>)
    returns (ghost start: Crosswalk)
    requires Sound(World(store)) && Snapshot(rows)
    modifies store
    ensures Ready(start, rows) && start.links == old(store.identifiers)
    ensures Grows(old(store.sats), start.sats)
    ensures NoradsPresent(old(store.sats), rows) ==> start == old(World(store))
    ensures Sound(World(store)) && World(store) == NightOf(start, rows, churned)
  {
    ghost var t := store.identifiers;
    NoradPass(store, rows);
    start := Crosswalk(store.sats, t, store.nextId);
    CosparPass(store, WithoutNorad(rows));
    var _ := ExpireMoved(store, rows);
    var _ := ExpireContested(store, churned);
  }

  /** Two nights on one snapshot: exactly when the second leaves every satellite and every link as the
      first did. */
  method TwoNights(store: GraphStore, rows: seq<GcatRow>, churned: set<(string, string)>)
    returns (ghost start: Crosswalk, ghost first: Crosswalk)
    requires Sound(World(store)) && Snapshot(rows)
    modifies store
    ensures Ready(start, rows) && start.links == old(store.identifiers)
    ensures NoradsPresent(old(store.sats), rows) ==> start == old(World(store))
    ensures first == NightOf(start, rows, churned)
    ensures World(store) == first <==> AllSettled(first, rows, churned)
    ensures PiecesApart(start.sats, rows) ==>
      (World(store) == first <==> AllQuiet(start, rows, churned))
    ensures AllAnchored(old(store.sats), rows) ==> World(store) == first
  {
    ghost var sats := store.sats;
    start := RunNight(store, rows, churned);
    first := World(store);
    NightLeavesDone(start, rows, churned);
    NextNightIff(first, rows, churned);
    ghost var _ := RunNight(store, rows, churned);
    if PiecesApart(start.sats, rows) { SecondNightIff(start, rows, churned); }
    if AllAnchored(sats, rows) {
      AnchoredAfterNoradPass(sats, start.sats, rows);
      FullNightIsFixpoint(start, rows, churned);
    }
  }

  lemma HoldersOfNewLinks(t: Identifiers, links: set<Link>, value: string, sat: SatId)
    requires forall s :: s !in Holders(t, value)
    requires forall c :: c in links ==> c.sat == sat
    ensures forall s :: s in Holders(LinkAll(t, links), value) ==> s == sat
  {
    forall r | r in LinkAll(t, links) && r.key.idType == "cospar" && r.key.value == value && r.data
      ensures r.sat == sat
    {
      assert r == Row(r.sat, r.key, true);
      LinkAllMember(t, links, r.sat, r.key, true);
      assert r in t ==> r.sat in Holders(t, value);
    }
  }

  lemma ContestedHoldersGone(before: Identifiers, after: Identifiers, sats: map<SatId, Satellite>,
                             churned: set<(string, string)>, value: string)
    requires ("cospar", value) in churned
    requires forall s :: s in Holders(before, value) ==> s in sats && sats[s].norad.None?
    requires forall sat, ident :: Live(after, sat, ident) ==>
      Live(before, sat, ident) && !Contested(sats, churned, Row(sat, ident, true))
    ensures forall s :: s !in Holders(after, value)
  {
    forall sat, ident: Ident | ident.idType == "cospar" && ident.value == value
      ensures !Live(after, sat, ident)
    {
      assert Live(before, sat, ident) ==> sat in Holders(before, value);
    }
    forall r | r in after && r.key.idType == "cospar" && r.key.value == value ensures !r.data {
      assert r == Row(r.sat, r.key, r.data);
      assert !Live(after, r.sat, r.key);
    }
  }

  /** A row that no night settles: no anchor, and a standard, churned piece that nobody holds. */
  ghost predicate Homeless(w: Crosswalk, row: GcatRow, churned: set<(string, string)>) {
    && Sound(w) && Waits(w.sats, row)
    && (forall s :: s !in Holders(w.links, row.cospar.value))
    && ("cospar", row.cospar.value) in churned
  }

  /** The passes do undo each other there: each night links the row to a new satellite and retires the
      link, so n nights make n satellites and leave the row as it was. */
  method UnanchoredRowNeverSettles(store: GraphStore, row: GcatRow, churned: set<(string, string)>, n: nat)
    requires Homeless(World(store), row, churned)
    modifies store
    ensures Homeless(World(store), row, churned)
    ensures Grows(old(store.sats), store.sats) && |store.sats| == |old(store.sats)| + n
  {
    for i := 0 to n
      invariant Homeless(World(store), row, churned)
      invariant Grows(old(store.sats), store.sats) && |store.sats| == |old(store.sats)| + i
    {
      HomelessNight(store, row, churned);
    }
  }

  method HomelessNight(store: GraphStore, row: GcatRow, churned: set<(string, string)>)
    requires Homeless(World(store), row, churned)
    modifies store
    ensures Homeless(World(store), row, churned)
    ensures Grows(old(store.sats), store.sats) && |store.sats| == |old(store.sats)| + 1
  {
    ghost var t, sats, id := store.identifiers, store.sats, store.nextId;
    assert Holders(t, row.cospar.value) == {};
    CosparStepSound(World(store), row);
    var _ := CosparRow(store, row);
    AnchoredAsBefore(sats, store.sats, row);
    HoldersOfNewLinks(t, LinksTo(row, id), row.cospar.value, id);
    ghost var linked := store.identifiers;
    var _ := ExpireContested(store, churned);
    ContestedHoldersGone(linked, store.identifiers, store.sats, churned, row.cospar.value);
  }

  /** A concrete row no night settles: on an empty crosswalk, key X00001 with the churned piece
      2024-001A. Every night from the second on creates a satellite. */
  lemma ChurnedPieceNeverSettles(n: nat)
    ensures var row := GcatRow("X00001", None, None, Some("2024-001A"), true, None, None);
      var churned := {("cospar", "2024-001A")};
      var w := Crosswalk(map[], {}, 1);
      && Snapshot([row]) && Homeless(w, row, churned)
      && var next := NightOf(Nights(w, [row], churned, n), [row], churned);
        |NightOf(next, [row], churned).sats| > |next.sats|
  {
    var row := GcatRow("X00001", None, None, Some("2024-001A"), true, None, None);
    var churned := {("cospar", "2024-001A")};
    var w := Crosswalk(map[], {}, 1);
    HomelessIsStuck(w, row, churned);
    EveryNightCreates(w, [row], churned, row, n);
  }

  lemma HomelessIsStuck(w: Crosswalk, row: GcatRow, churned: set<(string, string)>)
    requires Homeless(w, row, churned)
    ensures Stuck(w, [row], churned, row)
  {
    assert row in [row];
    forall s ensures s !in PermanentHolders(w, row.cospar.value) {
      assert s !in Holders(w.links, row.cospar.value);
    }
    assert PermanentHolders(w, row.cospar.value) == {};
  }
}
