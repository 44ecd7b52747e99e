/** Promotion of provisional records: identity/reconcile.py, on the identity graph of `Graph`.
    The name gate is a parameter: any function of the two names. */
module Reconcile {
  import opened Wrappers
  import opened Graph

  const RULE := "promotion_cospar_launch"

  type Gate = (string, string) -> bool

  function Passes(gate: Gate, provisional: string, anchored: string): bool {
    gate(provisional, anchored)
  }

  datatype Pair = Pair(provisional: SatId, anchored: SatId)

  // ----- candidates ---------------------------------------------------------------------

  predicate IsProvisional(db: Db, p: SatId) {
    p in db.sats && db.sats[p].norad.None?
  }

  predicate IsAnchored(db: Db, n: SatId) {
    n in db.sats && db.sats[n].norad.Some?
  }

  /** Current COSPAR values of a satellite, from any source. */
  function Cospars(t: Identifiers, sat: SatId): set<string> {
    set r | r in t && r.sat == sat && r.key.idType == "cospar" && r.data :: r.key.value
  }

  predicate Shares(t: Identifiers, a: SatId, b: SatId) {
    Cospars(t, a) * Cospars(t, b) != {}
  }

  /** The anchored satellites a provisional one could be: a shared current COSPAR and the same
      launch date, two unknown dates counting as the same. */
  function Twins(db: Db, p: SatId): set<SatId>
    requires p in db.sats
  {
    set n | n in db.sats && db.sats[n].norad.Some? && n != p
      && db.sats[n].launch == db.sats[p].launch && Shares(db.identifiers, p, n)
  }

  /** The SELECT: a provisional satellite with exactly one twin, and that twin. */
  predicate IsCandidate(db: Db, c: Pair) {
    IsProvisional(db, c.provisional) && Twins(db, c.provisional) == {c.anchored}
  }

  /** A row of the join: two satellites, one without a NORAD and one with, on the same launch date, that
      both have a current link to one COSPAR value. */
  ghost predicate Joined(db: Db, p: SatId, n: SatId, r: Row<Ident, bool>, q: Row<Ident, bool>) {
    && p in db.sats && n in db.sats && db.sats[p].norad == None && db.sats[n].norad != None
    && db.sats[p].launch == db.sats[n].launch
    && r in db.identifiers && r.sat == p && r.key.idType == "cospar" && r.data
    && q in db.identifiers && q.sat == n && q.key.idType == "cospar" && q.data
    && r.key.value == q.key.value
  }

  ghost predicate CouldBe(db: Db, p: SatId, n: SatId) {
    exists r, q :: Joined(db, p, n, r, q)
  }

  /** A pair is selected exactly when the join gives the provisional satellite that anchored one and no
      other. */
  lemma CandidateIff(db: Db, c: Pair)
    ensures IsCandidate(db, c) <==>
      CouldBe(db, c.provisional, c.anchored) && forall n :: CouldBe(db, c.provisional, n) ==> n == c.anchored
  {
    if IsProvisional(db, c.provisional) {
      forall n ensures n in Twins(db, c.provisional) <==> CouldBe(db, c.provisional, n) {
        TwinIff(db, c.provisional, n);
      }
      if IsCandidate(db, c) {
        assert c.anchored in Twins(db, c.provisional);
      }
    }
  }

  lemma TwinIff(db: Db, p: SatId, n: SatId)
    requires IsProvisional(db, p)
    ensures n in Twins(db, p) <==> CouldBe(db, p, n)
  {
    if n in Twins(db, p) {
      var v := SharedValue(db.identifiers, p, n);
      var r :| r in db.identifiers && r.sat == p && r.key.idType == "cospar" && r.data && r.key.value == v;
      var q :| q in db.identifiers && q.sat == n && q.key.idType == "cospar" && q.data && q.key.value == v;
      assert Joined(db, p, n, r, q);
    }
    if CouldBe(db, p, n) {
      var r, q :| Joined(db, p, n, r, q);
      assert r.key.value in Cospars(db.identifiers, p) * Cospars(db.identifiers, n);
    }
  }

  ghost function SharedValue(t: Identifiers, a: SatId, b: SatId): (v: string)
    requires Shares(t, a, b)
    ensures v in Cospars(t, a) && v in Cospars(t, b)
  {
    var v :| v in Cospars(t, a) * Cospars(t, b);
    v
  }

  /** The rows of the SELECT in its order. */
  ghost predicate IsSelection(db: Db, list: seq<Pair>) {
    && (forall c: Pair :: c in list <==> IsCandidate(db, c))
    && (forall i, j :: 0 <= i < j < |list| ==> list[i].provisional < list[j].provisional)
  }

  method Select(db: Db) returns (list: seq<Pair>)
    ensures IsSelection(db, list)
  {
    list := [];
    var left := set p, n | p in db.sats && n in db.sats && IsCandidate(db, Pair(p, n)) :: Pair(p, n);
    forall c: Pair | IsCandidate(db, c) ensures c in left {
      assert c.anchored in Twins(db, c.provisional);
      assert c == Pair(c.provisional, c.anchored);
    }
    while left != {}
      invariant forall c: Pair :: IsCandidate(db, c) <==> c in list || c in left
      invariant forall i, j :: 0 <= i < j < |list| ==> list[i].provisional < list[j].provisional
      invariant forall c, d :: c in list && d in left ==> c.provisional < d.provisional
      decreases left
    {
      var c := First(db, left);
      list := list + [c];
      left := left - {c};
    }
  }

  lemma OneRowEach(db: Db, c: Pair, d: Pair)
    requires IsCandidate(db, c) && IsCandidate(db, d)
    ensures c.provisional == d.provisional ==> c == d
  {
    assert c.anchored in {c.anchored} && d.anchored in {d.anchored};
  }

  method First(db: Db, s: set<Pair>) returns (low: Pair)
    requires s != {} && forall c :: c in s ==> IsCandidate(db, c)
    ensures low in s && forall c :: c in s && c != low ==> low.provisional < c.provisional
  {
    low :| low in s;
    var left := s - {low};
    while left != {}
      invariant left <= s && low in s
      invariant forall c :: c in s ==> c in left || low.provisional <= c.provisional
      decreases left
    {
      var c :| c in left;
      if c.provisional < low.provisional { low := c; }
      left := left - {c};
    }
    forall c | c in s && c != low ensures low.provisional < c.provisional {
      OneRowEach(db, c, low);
    }
  }

  // ----- one promotion run --------------------------------------------------------------

  /** One candidate: a name conflict is declined, anything else is merged into its twin. */
  function Settle(db: Db, c: Pair, gate: Gate): Db
    requires c.provisional in db.sats && c.anchored in db.sats
  {
    if Passes(gate, db.sats[c.provisional].name, db.sats[c.anchored].name) then
      var after := MergeDb(db, c.anchored, c.provisional, RULE).0;
      after.(events := after.events + [Event(c.anchored, Promoted)])
    else
      db.(events := db.events + [Event(c.provisional, Declined)])
  }

  /** A refused pair leaves an event on the provisional satellite and nothing else; any other ends with the
      provisional one gone, one log row, an event on the anchored one, and every link of the provisional
      one on the anchored one. */
  lemma SettleIs(db: Db, c: Pair, gate: Gate)
    requires Integrity(db) && IsProvisional(db, c.provisional) && IsAnchored(db, c.anchored)
    ensures var (p, n, after) := (c.provisional, c.anchored, Settle(db, c, gate));
      if gate(db.sats[p].name, db.sats[n].name) then FoldedInto(db, after, n, p)
      else after == db.(events := db.events + [Event(p, Declined)])
  {
    if Passes(gate, db.sats[c.provisional].name, db.sats[c.anchored].name) {
      PromotedIs(db, c);
    }
  }

  ghost predicate FoldedInto(db: Db, after: Db, n: SatId, p: SatId) {
    && p !in after.sats && (forall s :: s != p ==> (s in after.sats <==> s in db.sats))
    && Conserved(db.identifiers, after.identifiers, n, p)
    && after.log == db.log + [LogEntry(n, p, RULE)]
    && after.events == db.events + [Event(n, Promoted)]
  }

  lemma PromotedIs(db: Db, c: Pair)
    requires Integrity(db) && IsProvisional(db, c.provisional) && IsAnchored(db, c.anchored)
    ensures var after := MergeDb(db, c.anchored, c.provisional, RULE).0;
      FoldedInto(db, after.(events := after.events + [Event(c.anchored, Promoted)]), c.anchored, c.provisional)
  {
    LinksFollow(db.identifiers, c.anchored, c.provisional, db.sats.Keys);
    assert MergeDb(db, c.anchored, c.provisional, RULE).0 == FoldDb(db, c.anchored, c.provisional, RULE);
  }

  lemma LinksFollow(t: Identifiers, n: SatId, p: SatId, sats: set<SatId>)
    requires Unique(t) && References(t, sats) && n in sats && n != p
    ensures Conserved(t, Fold(t, n, p), n, p)
  {
    FoldConserves(t, n, p, sats);
  }

  /** The pairs can be worked through in any state a run passes through: distinct provisional
      satellites, each paired with an anchored one, all of them present. */
  ghost predicate Workable(db: Db, list: seq<Pair>) {
    && (forall c :: c in list ==> IsProvisional(db, c.provisional) && IsAnchored(db, c.anchored))
    && (forall i, j :: 0 <= i < j < |list| ==> list[i].provisional != list[j].provisional)
  }

  /** The loop of `promote` over the rows selected at its start. */
  ghost function PromoteAll(db: Db, list: seq<Pair>, gate: Gate): Db
    requires Workable(db, list)
    decreases |list|
  {
    if list == [] then db
    else
      SettleKeepsWorkable(db, list, gate);
      PromoteAll(Settle(db, list[0], gate), list[1..], gate)
  }

  lemma SettleKeepsWorkable(db: Db, list: seq<Pair>, gate: Gate)
    requires Workable(db, list) && list != []
    ensures Workable(Settle(db, list[0], gate), list[1..])
  {
    assert list[0] in list;
    forall c | c in list[1..]
      ensures c in list && c.provisional != list[0].provisional
    {
      var i :| 0 <= i < |list[1..]| && list[1..][i] == c;
      assert list[i + 1] == c;
    }
  }

  /** The provisional satellites that the run merges away. */
  ghost function Promotable(db: Db, list: seq<Pair>, gate: Gate): set<SatId>
    requires Workable(db, list)
  {
    set c | c in list && Passes(gate, db.sats[c.provisional].name, db.sats[c.anchored].name)
      :: c.provisional
  }

  lemma SelectionIsWorkable(db: Db, list: seq<Pair>)
    requires IsSelection(db, list)
    ensures Workable(db, list)
  {
    forall c | c in list ensures IsAnchored(db, c.anchored) {
      assert c.anchored in Twins(db, c.provisional);
    }
  }

  lemma SettleIsSafe(db: Db, c: Pair, gate: Gate)
    requires Integrity(db) && IsProvisional(db, c.provisional) && IsAnchored(db, c.anchored)
    ensures var after := Settle(db, c, gate);
      && Integrity(after)
      && after.sats == db.sats - (if Passes(gate, db.sats[c.provisional].name, db.sats[c.anchored].name)
                                  then {c.provisional} else {})
  {
    if Passes(gate, db.sats[c.provisional].name, db.sats[c.anchored].name) {
      MergePreservesIntegrity(db, c.anchored, c.provisional, RULE);
    }
  }

  /** A run removes exactly the promoted provisional satellites: every survivor exists at its turn
      (otherwise the merge would fail), no anchored satellite disappears, and integrity holds. */
  lemma {:induction false} RunIsSafe(db: Db, list: seq<Pair>, gate: Gate)
    requires Integrity(db) && Workable(db, list)
    ensures Integrity(PromoteAll(db, list, gate))
    ensures PromoteAll(db, list, gate).sats == db.sats - Promotable(db, list, gate)
    ensures forall n :: IsAnchored(db, n) ==> IsAnchored(PromoteAll(db, list, gate), n)
    decreases |list|
  {
    if list != [] {
      var next := Settle(db, list[0], gate);
      assert list[0] in list;
      SettleIsSafe(db, list[0], gate);
      SettleKeepsWorkable(db, list, gate);
      RunIsSafe(next, list[1..], gate);
      PromotableStep(db, list, gate);
    }
  }

  lemma PromotableStep(db: Db, list: seq<Pair>, gate: Gate)
    requires Integrity(db) && Workable(db, list) && list != []
    requires Workable(Settle(db, list[0], gate), list[1..])
    ensures Promotable(db, list, gate)
         == (if Passes(gate, db.sats[list[0].provisional].name, db.sats[list[0].anchored].name)
             then {list[0].provisional} else {})
            + Promotable(Settle(db, list[0], gate), list[1..], gate)
  {
    assert list[0] in list;
    SettleIsSafe(db, list[0], gate);
    var next := Settle(db, list[0], gate);
    forall c | c in list[1..] ensures next.sats[c.provisional] == db.sats[c.provisional]
                                   && next.sats[c.anchored] == db.sats[c.anchored] {
      assert c.provisional in next.sats && c.anchored in next.sats;
    }
    assert list == [list[0]] + list[1..];
  }

  ghost function Provisionals(db: Db): set<SatId> {
    set p | p in db.sats && db.sats[p].norad.None?
  }

  /** The measure of a run: each promotion uses up one provisional record. */
  lemma PromotionsUseUpProvisionals(db: Db, list: seq<Pair>, gate: Gate)
    requires Integrity(db) && Workable(db, list)
    ensures |Provisionals(PromoteAll(db, list, gate))|
         == |Provisionals(db)| - |Promotable(db, list, gate)|
  {
    RunIsSafe(db, list, gate);
    assert Promotable(db, list, gate) <= Provisionals(db);
    assert Provisionals(PromoteAll(db, list, gate)) == Provisionals(db) - Promotable(db, list, gate);
  }

  // ----- repeated runs ------------------------------------------------------------------

  lemma {:induction false} NothingPromotedChangesNothing(db: Db, list: seq<Pair>, gate: Gate)
    requires Integrity(db) && Workable(db, list) && Promotable(db, list, gate) == {}
    ensures PromoteAll(db, list, gate).sats == db.sats
    ensures PromoteAll(db, list, gate).identifiers == db.identifiers
    decreases |list|
  {
    if list != [] {
      assert list[0] in list;
      assert list[0].provisional !in Promotable(db, list, gate);
      SettleKeepsWorkable(db, list, gate);
      SettleIsSafe(db, list[0], gate);
      PromotableStep(db, list, gate);
      NothingPromotedChangesNothing(Settle(db, list[0], gate), list[1..], gate);
    }
  }

  lemma SelectionUnique(db: Db, a: seq<Pair>, b: seq<Pair>)
    requires IsSelection(db, a) && IsSelection(db, b)
    ensures a == b
  {
    SortedSameElements(a, b);
  }

  lemma {:induction false} SortedSameElements(a: seq<Pair>, b: seq<Pair>)
    requires forall c: Pair :: c in a <==> c in b
    requires forall i, j :: 0 <= i < j < |a| ==> a[i].provisional < a[j].provisional
    requires forall i, j :: 0 <= i < j < |b| ==> b[i].provisional < b[j].provisional
    ensures a == b
  {
    assert b != [] ==> b[0] in a;
    if a != [] {
      assert a[0] in b;
      assert b != [] && b[0] in a;
      assert a[0] == b[0];
      forall c: Pair ensures c in a[1..] <==> c in b[1..] {
        assert c in a <==> c == a[0] || c in a[1..];
        assert c in b <==> c == b[0] || c in b[1..];
      }
      SortedSameElements(a[1..], b[1..]);
    }
  }

  /** Once a run promotes nothing, the next one selects the same pairs, declined ones included, and
      promotes nothing either. */
  lemma QuietRunsStayQuiet(db: Db, list: seq<Pair>, gate: Gate)
    requires Integrity(db) && IsSelection(db, list) && Workable(db, list)
    requires Promotable(db, list, gate) == {}
    ensures IsSelection(PromoteAll(db, list, gate), list)
    ensures Workable(PromoteAll(db, list, gate), list)
    ensures Promotable(PromoteAll(db, list, gate), list, gate) == {}
  {
    NothingPromotedChangesNothing(db, list, gate);
    var after := PromoteAll(db, list, gate);
    forall c: Pair ensures IsCandidate(after, c) <==> IsCandidate(db, c) {
      if c.provisional in db.sats {
        assert Twins(after, c.provisional) == Twins(db, c.provisional);
      }
    }
  }

  /** `promote`, on the store. */
  method Promote(store: GraphStore, gate: Gate) returns (promoted: nat, ghost list: seq<Pair>)
    requires Integrity(store.Contents())
    modifies store
    ensures IsSelection(old(store.Contents()), list) && Workable(old(store.Contents()), list)
    ensures store.Contents() == PromoteAll(old(store.Contents()), list, gate)
    ensures Integrity(store.Contents())
    ensures promoted == |Promotable(old(store.Contents()), list, gate)|
    ensures |Provisionals(store.Contents())| == |Provisionals(old(store.Contents()))| - promoted
  {
    var rows := Select(store.Contents());
    list := rows;
    SelectionIsWorkable(store.Contents(), rows);
    RunIsSafe(store.Contents(), rows, gate);
    PromotionsUseUpProvisionals(store.Contents(), rows, gate);
    promoted := 0;
    for i := 0 to |rows|
      invariant Integrity(store.Contents()) && Workable(store.Contents(), rows[i..])
      invariant PromoteAll(old(store.Contents()), rows, gate)
             == PromoteAll(store.Contents(), rows[i..], gate)
      invariant promoted + |Promotable(store.Contents(), rows[i..], gate)|
             == |Promotable(old(store.Contents()), rows, gate)|
    {
      ghost var rest := rows[i..];
      assert rest[0] == rows[i] && rest[1..] == rows[i + 1..];
      var done := SettleOne(store, rows[i], gate, rest);
      if done { promoted := promoted + 1; }
    }
  }

  method SettleOne(store: GraphStore, c: Pair, gate: Gate, ghost rest: seq<Pair>) returns (promoted: bool)
    requires Integrity(store.Contents()) && Workable(store.Contents(), rest)
    requires rest != [] && rest[0] == c && c in rest
    modifies store
    ensures Integrity(store.Contents()) && Workable(store.Contents(), rest[1..])
    ensures store.Contents() == Settle(old(store.Contents()), c, gate)
    ensures PromoteAll(old(store.Contents()), rest, gate)
         == PromoteAll(store.Contents(), rest[1..], gate)
    ensures (if promoted then 1 else 0) + |Promotable(store.Contents(), rest[1..], gate)|
         == |Promotable(old(store.Contents()), rest, gate)|
  {
    SettleIsSafe(store.Contents(), c, gate);
    SettleKeepsWorkable(store.Contents(), rest, gate);
    PromotableStep(store.Contents(), rest, gate);
    ghost var later := Promotable(Settle(store.Contents(), c, gate), rest[1..], gate);
    assert c.provisional !in later;
    promoted := Passes(gate, store.sats[c.provisional].name, store.sats[c.anchored].name);
    if promoted {
      var outcome := store.Merge(c.anchored, c.provisional, RULE);
      assert outcome.Merged?;
      store.events := store.events + [Event(c.anchored, Promoted)];
    } else {
      store.events := store.events + [Event(c.provisional, Declined)];
    }
  }

  /** Any number of repeated runs promotes at most as many records as were provisional at first,
      so among more runs than that one promotes nothing, and after it none ever does. */
  method RepeatPromote(store: GraphStore, gate: Gate, runs: nat) returns (counts: seq<nat>)
    requires Integrity(store.Contents())
    modifies store
    ensures |counts| == runs
    ensures Sum(counts) + |Provisionals(store.Contents())| == |Provisionals(old(store.Contents()))|
    ensures runs > |Provisionals(old(store.Contents()))| ==> exists i :: 0 <= i < runs && counts[i] == 0
    ensures forall i, j :: 0 <= i < j < runs && counts[i] == 0 ==> counts[j] == 0
  {
    counts := [];
    ghost var quiet := false;
    ghost var list: seq<Pair> := [];
    for n := 0 to runs
      invariant Integrity(store.Contents()) && |counts| == n
      invariant Sum(counts) + |Provisionals(store.Contents())| == |Provisionals(old(store.Contents()))|
      invariant !quiet ==> forall i :: 0 <= i < n ==> counts[i] > 0
      invariant quiet ==>
        && IsSelection(store.Contents(), list) && Workable(store.Contents(), list)
        && Promotable(store.Contents(), list, gate) == {}
      invariant forall i, j :: 0 <= i < j < n && counts[i] == 0 ==> counts[j] == 0
    {
      ghost var before := store.Contents();
      var k, rows := Promote(store, gate);
      if quiet { SelectionUnique(before, rows, list); }
      if k == 0 {
        QuietRunsStayQuiet(before, rows, gate);
        quiet, list := true, rows;
      }
      counts := counts + [k];
      SumAppend(counts[..n], k);
      assert counts[..n] + [k] == counts;
    }
    if forall i :: 0 <= i < runs ==> counts[i] > 0 {
      SumAtLeast(counts);
    }
  }

  // ----- what a second run selects ------------------------------------------------------

  /** The provisional satellites merged into `n`, in the order of the run. */
  ghost function Donors(db: Db, list: seq<Pair>, gate: Gate, n: SatId): seq<SatId>
    requires Workable(db, list)
    decreases |list|
  {
    if list == [] then []
    else
      var c := list[0];
      assert c in list;
      assert Workable(db, list[1..]) by { WorkableTail(db, list); }
      (if c.anchored == n && Passes(gate, db.sats[c.provisional].name, db.sats[n].name)
        then [c.provisional] else [])
      + Donors(db, list[1..], gate, n)
  }

  lemma WorkableTail(db: Db, list: seq<Pair>)
    requires Workable(db, list) && list != []
    ensures Workable(db, list[1..])
  {
    assert forall c :: c in list[1..] ==> c in list;
  }

  /** The first of the line to hold the key decides whether it is current. */
  function LiveInLine(t: Identifiers, line: seq<SatId>, ident: Ident): bool {
    if line == [] then false
    else if ident in Keys(t, line[0]) then Live(t, line[0], ident)
    else LiveInLine(t, line[1..], ident)
  }

  lemma {:induction false} LiveInLineHasRow(t: Identifiers, line: seq<SatId>, ident: Ident)
    requires LiveInLine(t, line, ident)
    ensures exists r :: r in t && r.key == ident
  {
    if ident in Keys(t, line[0]) {
      assert Row(line[0], ident, true) in t;
    } else {
      LiveInLineHasRow(t, line[1..], ident);
    }
  }

  lemma {:induction false} LineUnmoved(t: Identifiers, u: Identifiers, line: seq<SatId>, ident: Ident)
    requires forall r: Row<Ident, bool> :: r.sat in line ==> (r in u <==> r in t)
    ensures LiveInLine(u, line, ident) == LiveInLine(t, line, ident)
  {
    if line != [] {
      var n := line[0];
      assert n in line;
      assert ident in Keys(u, n) <==> ident in Keys(t, n) by {
        if ident in Keys(u, n) {
          var r :| r in u && r.sat == n && r.key == ident;
          assert r in t;
        }
        if ident in Keys(t, n) {
          var r :| r in t && r.sat == n && r.key == ident;
          assert r in u;
        }
      }
      LineUnmoved(t, u, line[1..], ident);
    }
  }

  lemma {:induction false} DonorsArePaired(db: Db, list: seq<Pair>, gate: Gate, n: SatId)
    requires Workable(db, list)
    ensures forall p :: p in Donors(db, list, gate, n) ==> IsProvisional(db, p) && Pair(p, n) in list
    decreases |list|
  {
    if list != [] {
      WorkableTail(db, list);
      assert list[0] in list;
      DonorsArePaired(db, list[1..], gate, n);
      forall p | p in Donors(db, list, gate, n) ensures IsProvisional(db, p) && Pair(p, n) in list {
        if p !in Donors(db, list[1..], gate, n) { assert list[0] == Pair(p, n); }
      }
    }
  }

  /** Names and pairs are all the donors depend on. */
  lemma {:induction false} DonorsUnmoved(db: Db, next: Db, list: seq<Pair>, gate: Gate, n: SatId)
    requires Workable(db, list) && Workable(next, list)
    requires forall s :: s in next.sats ==> s in db.sats && next.sats[s] == db.sats[s]
    ensures Donors(next, list, gate, n) == Donors(db, list, gate, n)
    decreases |list|
  {
    if list != [] {
      WorkableTail(db, list);
      WorkableTail(next, list);
      assert list[0] in list;
      DonorsUnmoved(db, next, list[1..], gate, n);
    }
  }

  /** One merge moves the merged record's keys behind the survivor's own. */
  lemma FoldLine(t: Identifiers, n: SatId, p: SatId, rest: seq<SatId>, ident: Ident)
    requires n != p && Unique(t) && n !in rest && p !in rest
    ensures LiveInLine(Fold(t, n, p), [n] + rest, ident) == LiveInLine(t, [n, p] + rest, ident)
  {
    var folded := Fold(t, n, p);
    var sats := set r | r in t :: r.sat;
    FoldConserves(t, n, p, sats);
    SurvivorDecidesLiveness(t, n, p, ident);
    assert forall r: Row<Ident, bool> :: r.sat in rest ==> (r in folded <==> r in t);
    LineUnmoved(t, folded, rest, ident);
    assert ([n] + rest)[1..] == rest && ([n, p] + rest)[1..] == [p] + rest && ([p] + rest)[1..] == rest;
    EveryRowHasItsKey(t);
  }

  /** What a run leaves current on a satellite it leaves, read off the state before the run. */
  lemma {:induction false} LiveAfterRun(db: Db, list: seq<Pair>, gate: Gate, n: SatId, ident: Ident)
    requires Integrity(db) && Workable(db, list) && n in PromoteAll(db, list, gate).sats
    ensures Live(PromoteAll(db, list, gate).identifiers, n, ident)
       <==> LiveInLine(db.identifiers, [n] + Donors(db, list, gate, n), ident)
    decreases |list|
  {
    EveryRowHasItsKey(db.identifiers);
    if list != [] {
      var next, c, rest := Settle(db, list[0], gate), list[0], list[1..];
      assert c in list;
      SettleIsSafe(db, c, gate);
      SettleKeepsWorkable(db, list, gate);
      WorkableTail(db, list);
      RunIsSafe(next, rest, gate);
      LiveAfterRun(next, rest, gate, n, ident);
      DonorsUnmoved(db, next, rest, gate, n);
      LiveAfterSettle(db, c, gate, n, rest, ident);
    }
  }

  /** The step of `LiveAfterRun`. */
  lemma LiveAfterSettle(db: Db, c: Pair, gate: Gate, n: SatId, rest: seq<Pair>, ident: Ident)
    requires Integrity(db) && IsProvisional(db, c.provisional) && IsAnchored(db, c.anchored)
    requires Workable(db, rest) && n in Settle(db, c, gate).sats
    requires forall d :: d in rest ==> d.provisional != c.provisional
    ensures var after := Settle(db, c, gate);
      var later := Donors(db, rest, gate, n);
      var own := if c.anchored == n && Passes(gate, db.sats[c.provisional].name, db.sats[n].name)
        then [c.provisional] else [];
      LiveInLine(after.identifiers, [n] + later, ident)
        == LiveInLine(db.identifiers, [n] + (own + later), ident)
  {
    var later := Donors(db, rest, gate, n);
    var after := Settle(db, c, gate);
    SettleIsSafe(db, c, gate);
    DonorsArePaired(db, rest, gate, n);
    forall p | p in later ensures p != c.provisional {
      assert Pair(p, n) in rest;
    }
    assert [n] + ([c.provisional] + later) == [n, c.provisional] + later;
    assert [n] + ([] + later) == [n] + later;
    if Passes(gate, db.sats[c.provisional].name, db.sats[c.anchored].name) {
      if c.anchored == n {
        assert n !in later;
        FoldLine(db.identifiers, n, c.provisional, later, ident);
      } else {
        FoldElsewhere(db, c, [n] + later, ident);
      }
    }
  }

  /** A merge into another satellite leaves the line alone. */
  lemma FoldElsewhere(db: Db, c: Pair, line: seq<SatId>, ident: Ident)
    requires Integrity(db) && c.anchored != c.provisional && c.anchored !in line && c.provisional !in line
    ensures LiveInLine(Fold(db.identifiers, c.anchored, c.provisional), line, ident)
         == LiveInLine(db.identifiers, line, ident)
  {
    FoldConserves(db.identifiers, c.anchored, c.provisional, db.sats.Keys);
    LineUnmoved(db.identifiers, Fold(db.identifiers, c.anchored, c.provisional), line, ident);
  }

  /** The COSPARs a run leaves current on a satellite. */
  ghost function CosparsAfter(db: Db, list: seq<Pair>, gate: Gate, n: SatId): set<string>
    requires Workable(db, list)
  {
    var line := [n] + Donors(db, list, gate, n);
    set r | r in db.identifiers && r.key.idType == "cospar" && LiveInLine(db.identifiers, line, r.key)
      :: r.key.value
  }

  lemma CosparsAfterRun(db: Db, list: seq<Pair>, gate: Gate, n: SatId)
    requires Integrity(db) && Workable(db, list) && n in PromoteAll(db, list, gate).sats
    ensures Cospars(PromoteAll(db, list, gate).identifiers, n) == CosparsAfter(db, list, gate, n)
  {
    var t, u := db.identifiers, PromoteAll(db, list, gate).identifiers;
    var line := [n] + Donors(db, list, gate, n);
    forall v | v in Cospars(u, n) ensures v in CosparsAfter(db, list, gate, n) {
      var r :| r in u && r.sat == n && r.key.idType == "cospar" && r.data && r.key.value == v;
      assert r == Row(n, r.key, true);
      LiveAfterRun(db, list, gate, n, r.key);
      LiveInLineHasRow(t, line, r.key);
      var was :| was in t && was.key == r.key;
      assert was.key.value == v;
    }
    forall v | v in CosparsAfter(db, list, gate, n) ensures v in Cospars(u, n) {
      var r :| r in t && r.key.idType == "cospar" && LiveInLine(t, line, r.key) && r.key.value == v;
      LiveAfterRun(db, list, gate, n, r.key);
      assert Row(n, r.key, true).key.value == v;
    }
  }

  lemma {:induction false} NoDonorsOfProvisional(db: Db, list: seq<Pair>, gate: Gate, q: SatId)
    requires Workable(db, list) && IsProvisional(db, q)
    ensures Donors(db, list, gate, q) == []
    decreases |list|
  {
    if list != [] {
      WorkableTail(db, list);
      assert list[0] in list;
      NoDonorsOfProvisional(db, list[1..], gate, q);
    }
  }

  /** A record the run leaves keeps its own COSPARs; an anchored satellite never loses one. */
  lemma OwnCosparsStay(db: Db, list: seq<Pair>, gate: Gate, n: SatId)
    requires Integrity(db) && Workable(db, list) && n in db.sats
    ensures Cospars(db.identifiers, n) <= CosparsAfter(db, list, gate, n)
    ensures IsProvisional(db, n) ==> CosparsAfter(db, list, gate, n) == Cospars(db.identifiers, n)
  {
    var t := db.identifiers;
    var line := [n] + Donors(db, list, gate, n);
    EveryRowHasItsKey(t);
    forall v | v in Cospars(t, n) ensures v in CosparsAfter(db, list, gate, n) {
      var r :| r in t && r.sat == n && r.key.idType == "cospar" && r.data && r.key.value == v;
      assert r == Row(n, r.key, true);
      assert LiveInLine(t, line, r.key);
    }
    if IsProvisional(db, n) {
      NoDonorsOfProvisional(db, list, gate, n);
      forall v | v in CosparsAfter(db, list, gate, n) ensures v in Cospars(t, n) {
        var r :| r in t && r.key.idType == "cospar" && LiveInLine(t, line, r.key) && r.key.value == v;
        assert line[0] == n && line[1..] == [];
        assert !LiveInLine(t, line[1..], r.key);
        assert Live(t, n, r.key);
        assert Row(n, r.key, true).key.value == v;
      }
    }
  }

  /** The twins a provisional record has once the run is over. */
  ghost function TwinsAfter(db: Db, list: seq<Pair>, gate: Gate, q: SatId): set<SatId>
    requires Workable(db, list) && q in db.sats
  {
    set n | n in db.sats && db.sats[n].norad.Some? && n != q && db.sats[n].launch == db.sats[q].launch
      && Cospars(db.identifiers, q) * CosparsAfter(db, list, gate, n) != {}
  }

  /** A record the run leaves has exactly those twins, and none it had before is lost. */
  lemma TwinsAfterRun(db: Db, list: seq<Pair>, gate: Gate, q: SatId)
    requires Integrity(db) && Workable(db, list)
    requires IsProvisional(db, q) && q !in Promotable(db, list, gate)
    ensures IsProvisional(PromoteAll(db, list, gate), q)
    ensures Twins(PromoteAll(db, list, gate), q) == TwinsAfter(db, list, gate, q)
    ensures Twins(db, q) <= TwinsAfter(db, list, gate, q)
  {
    var after := PromoteAll(db, list, gate);
    RunIsSafe(db, list, gate);
    CosparsAfterRun(db, list, gate, q);
    OwnCosparsStay(db, list, gate, q);
    forall n | n in db.sats && db.sats[n].norad.Some?
      ensures n in after.sats && after.sats[n] == db.sats[n]
      ensures Shares(after.identifiers, q, n) <==>
        Cospars(db.identifiers, q) * CosparsAfter(db, list, gate, n) != {}
      ensures Shares(db.identifiers, q, n) ==>
        Cospars(db.identifiers, q) * CosparsAfter(db, list, gate, n) != {}
    {
      assert IsAnchored(db, n);
      CosparsAfterRun(db, list, gate, n);
      OwnCosparsStay(db, list, gate, n);
      if Shares(db.identifiers, q, n) {
        var v :| v in Cospars(db.identifiers, q) * Cospars(db.identifiers, n);
        assert v in Cospars(db.identifiers, q) * CosparsAfter(db, list, gate, n);
      }
    }
  }

  /** A pair the second run will select: a record the first run leaves, with a single twin by then. */
  ghost predicate SelectedNext(db: Db, first: seq<Pair>, gate: Gate, c: Pair)
    requires Workable(db, first)
  {
    && IsProvisional(db, c.provisional) && c.provisional !in Promotable(db, first, gate)
    && TwinsAfter(db, first, gate, c.provisional) == {c.anchored}
  }

  lemma CandidateAfterIff(db: Db, first: seq<Pair>, gate: Gate, c: Pair)
    requires Integrity(db) && Workable(db, first)
    ensures IsCandidate(PromoteAll(db, first, gate), c) <==> SelectedNext(db, first, gate, c)
  {
    RunIsSafe(db, first, gate);
    if c.provisional in PromoteAll(db, first, gate).sats && IsProvisional(db, c.provisional) {
      TwinsAfterRun(db, first, gate, c.provisional);
    }
    if SelectedNext(db, first, gate, c) {
      TwinsAfterRun(db, first, gate, c.provisional);
    }
  }

  /** The exact condition, on the state before the first run. The second run selects nothing if and
      only if no record that the first leaves has a single twin by then, and promotes nothing if and
      only if every such record disagrees with that twin on the name. */
  lemma SecondRunIff(db: Db, first: seq<Pair>, second: seq<Pair>, gate: Gate)
    requires Integrity(db) && IsSelection(db, first) && Workable(db, first)
    requires IsSelection(PromoteAll(db, first, gate), second) && Workable(PromoteAll(db, first, gate), second)
    ensures forall c: Pair :: c in second <==> SelectedNext(db, first, gate, c)
    ensures second == [] <==> forall c: Pair :: !SelectedNext(db, first, gate, c)
    ensures Promotable(PromoteAll(db, first, gate), second, gate) == {} <==>
      forall c: Pair :: SelectedNext(db, first, gate, c) ==>
        c.anchored in db.sats && !Passes(gate, db.sats[c.provisional].name, db.sats[c.anchored].name)
  {
    var after := PromoteAll(db, first, gate);
    RunIsSafe(db, first, gate);
    forall c: Pair ensures c in second <==> SelectedNext(db, first, gate, c) {
      CandidateAfterIff(db, first, gate, c);
    }
    if second != [] { assert second[0] in second; }
    PromotableIff(after, second, gate);
    forall c: Pair | c in second ensures c.anchored in db.sats && c.provisional in db.sats
      && after.sats[c.provisional] == db.sats[c.provisional] && after.sats[c.anchored] == db.sats[c.anchored]
    {
    }
  }

  /** A run promotes something exactly when some pair passes the gate. */
  lemma PromotableIff(db: Db, list: seq<Pair>, gate: Gate)
    requires Workable(db, list)
    ensures Promotable(db, list, gate) == {} <==>
      forall c :: c in list ==> !Passes(gate, db.sats[c.provisional].name, db.sats[c.anchored].name)
  {
    forall c | c in list && Passes(gate, db.sats[c.provisional].name, db.sats[c.anchored].name)
      ensures c.provisional in Promotable(db, list, gate)
    {
    }
  }

  /** A declined pair comes up again exactly when its record gained no second twin. */
  lemma DeclinedComesUpAgainIff(db: Db, first: seq<Pair>, gate: Gate, c: Pair)
    requires Integrity(db) && IsSelection(db, first) && Workable(db, first)
    requires c in first && c.provisional !in Promotable(db, first, gate)
    ensures IsCandidate(PromoteAll(db, first, gate), c) <==>
      TwinsAfter(db, first, gate, c.provisional) <= Twins(db, c.provisional)
  {
    CandidateAfterIff(db, first, gate, c);
    assert IsCandidate(db, c);
    TwinsAfterRun(db, first, gate, c.provisional);
  }

  // ----- records that share no COSPAR ---------------------------------------------------

  /** No two provisional satellites share a current COSPAR. */
  ghost predicate CosparsApart(db: Db) {
    forall p, q | IsProvisional(db, p) && IsProvisional(db, q) && p != q :: !Shares(db.identifiers, p, q)
  }

  lemma FoldCospars(t: Identifiers, n: SatId, p: SatId, sat: SatId)
    requires n != p && Unique(t)
    ensures sat != n && sat != p ==> Cospars(Fold(t, n, p), sat) == Cospars(t, sat)
    ensures Cospars(t, n) <= Cospars(Fold(t, n, p), n) <= Cospars(t, n) + Cospars(t, p)
  {
    var folded := Fold(t, n, p);
    forall r: Row<Ident, bool> | r.sat != n && r.sat != p ensures r in folded <==> r in t {
    }
    forall v | v in Cospars(folded, n) ensures v in Cospars(t, n) + Cospars(t, p) {
      var r :| r in folded && r.sat == n && r.key.idType == "cospar" && r.data && r.key.value == v;
      if r !in t {
        var m :| m in t && m.sat == p && r == Move(m, n);
      }
    }
    forall v | v in Cospars(t, n) ensures v in Cospars(folded, n) {
      var r :| r in t && r.sat == n && r.key.idType == "cospar" && r.data && r.key.value == v;
      assert r in folded;
    }
  }

  /** Merging p into n gives n the COSPARs of p, which is nothing to a record that shares none with p. */
  lemma TwinsUnmoved(db: Db, c: Pair, gate: Gate, q: SatId)
    requires Integrity(db) && !Shares(db.identifiers, q, c.provisional)
    requires IsProvisional(db, c.provisional) && IsAnchored(db, c.anchored)
    requires IsProvisional(db, q) && q != c.provisional
    ensures IsProvisional(Settle(db, c, gate), q)
    ensures Twins(Settle(db, c, gate), q) == Twins(db, q)
    ensures Cospars(Settle(db, c, gate).identifiers, q) == Cospars(db.identifiers, q)
  {
    var after := Settle(db, c, gate);
    SettleIsSafe(db, c, gate);
    if after.identifiers != db.identifiers {
      FoldCospars(db.identifiers, c.anchored, c.provisional, q);
      forall n | n in db.sats && n != c.provisional
        ensures Shares(after.identifiers, q, n) <==> Shares(db.identifiers, q, n)
      {
        SharesUnmoved(db.identifiers, c, q, n);
      }
    }
  }

  lemma SharesUnmoved(t: Identifiers, c: Pair, q: SatId, n: SatId)
    requires Unique(t) && c.anchored != c.provisional && !Shares(t, q, c.provisional)
    requires q != c.provisional && q != c.anchored && n != c.provisional
    ensures Shares(Fold(t, c.anchored, c.provisional), q, n) <==> Shares(t, q, n)
  {
    var after := Fold(t, c.anchored, c.provisional);
    FoldCospars(t, c.anchored, c.provisional, n);
    FoldCospars(t, c.anchored, c.provisional, q);
    if Shares(after, q, n) {
      var v :| v in Cospars(after, q) * Cospars(after, n);
      assert v !in Cospars(t, q) * Cospars(t, c.provisional);
      assert v in Cospars(t, q) * Cospars(t, n);
    }
    if Shares(t, q, n) {
      var v :| v in Cospars(t, q) * Cospars(t, n);
      assert v in Cospars(after, q) * Cospars(after, n);
    }
  }

  lemma {:induction false} TwinsUnmovedByRun(db: Db, list: seq<Pair>, gate: Gate, q: SatId)
    requires Integrity(db) && CosparsApart(db) && Workable(db, list)
    requires IsProvisional(db, q) && q !in Promotable(db, list, gate)
    ensures IsProvisional(PromoteAll(db, list, gate), q)
    ensures Twins(PromoteAll(db, list, gate), q) == Twins(db, q)
    decreases |list|
  {
    if list != [] {
      var c := list[0];
      var next := Settle(db, c, gate);
      assert c in list;
      SettleIsSafe(db, c, gate);
      SettleKeepsWorkable(db, list, gate);
      PromotableStep(db, list, gate);
      if q == c.provisional {
        assert next.sats == db.sats && next.identifiers == db.identifiers;
        assert Twins(next, q) == Twins(db, q);
        assert CosparsApart(next);
      } else {
        TwinsUnmoved(db, c, gate, q);
        ApartStaysApart(db, c, gate);
      }
      TwinsUnmovedByRun(next, list[1..], gate, q);
    }
  }

  lemma ApartStaysApart(db: Db, c: Pair, gate: Gate)
    requires Integrity(db) && CosparsApart(db)
    requires IsProvisional(db, c.provisional) && IsAnchored(db, c.anchored)
    ensures CosparsApart(Settle(db, c, gate))
  {
    var after := Settle(db, c, gate);
    SettleIsSafe(db, c, gate);
    if after.identifiers != db.identifiers {
      forall p, q | IsProvisional(after, p) && IsProvisional(after, q) && p != q
        ensures !Shares(after.identifiers, p, q)
      {
        TwinsUnmoved(db, c, gate, p);
        TwinsUnmoved(db, c, gate, q);
        assert !Shares(db.identifiers, p, q);
      }
    }
  }

  /** When the provisional records share no current COSPAR with each other, one run is enough: the
      second selects only pairs that the first declined. */
  lemma OneRunIsEnough(db: Db, first: seq<Pair>, second: seq<Pair>, gate: Gate)
    requires Integrity(db) && CosparsApart(db)
    requires IsSelection(db, first) && Workable(db, first)
    requires IsSelection(PromoteAll(db, first, gate), second) && Workable(PromoteAll(db, first, gate), second)
    ensures Promotable(PromoteAll(db, first, gate), second, gate) == {}
  {
    var after := PromoteAll(db, first, gate);
    RunIsSafe(db, first, gate);
    forall c | c in second ensures !Passes(gate, after.sats[c.provisional].name, after.sats[c.anchored].name) {
      assert IsCandidate(after, c);
      assert c.provisional !in Promotable(db, first, gate);
      TwinsUnmovedByRun(db, first, gate, c.provisional);
      assert IsCandidate(db, c);
      assert c in first;
      assert c.anchored in Twins(db, c.provisional);
      assert after.sats[c.provisional] == db.sats[c.provisional];
      assert after.sats[c.anchored] == db.sats[c.anchored];
    }
  }

  /** Record 10 shares COSPAR A with the anchored satellite 1 and COSPAR B with record 11. */
  const SHARED := Db(
    map[1 := Satellite(Some(900), None, "X"), 10 := Satellite(None, None, "X"),
        11 := Satellite(None, None, "X")],
    {Row(1, Ident("cospar", "A", "gcat"), true), Row(10, Ident("cospar", "A", "gcat"), true),
     Row(10, Ident("cospar", "B", "gcat"), true), Row(11, Ident("cospar", "B", "gcat"), true)},
    {}, {}, {}, {}, {}, {}, [], [])

  lemma SharesBy(t: Identifiers, p: SatId, n: SatId, v: string)
    requires Row(p, Ident("cospar", v, "gcat"), true) in t && Row(n, Ident("cospar", v, "gcat"), true) in t
    ensures Shares(t, p, n)
  {
    var r, s := Row(p, Ident("cospar", v, "gcat"), true), Row(n, Ident("cospar", v, "gcat"), true);
    assert r.key.value in Cospars(t, p) && s.key.value in Cospars(t, n);
    assert v in Cospars(t, p) * Cospars(t, n);
  }

  lemma SharedBefore()
    ensures Twins(SHARED, 10) == {1} && Twins(SHARED, 11) == {}
  {
    var t := SHARED.identifiers;
    SharesBy(t, 10, 1, "A");
    assert "A" != "B" by { assert "A"[0] == 'A' && "B"[0] == 'B'; }
    assert Cospars(t, 1) <= {"A"};
    assert Cospars(t, 11) <= {"B"};
    assert !Shares(t, 11, 1);
  }

  lemma SharedAfter(db: Db)
    requires db.sats == SHARED.sats - {10}
    requires Row(1, Ident("cospar", "B", "gcat"), true) in db.identifiers
    requires Row(11, Ident("cospar", "B", "gcat"), true) in db.identifiers
    ensures Twins(db, 11) == {1}
  {
    SharesBy(db.identifiers, 11, 1, "B");
  }

  lemma SharedSelection()
    ensures IsSelection(SHARED, [Pair(10, 1)])
  {
    SharedBefore();
    forall c: Pair ensures c in [Pair(10, 1)] <==> IsCandidate(SHARED, c) {
      if IsCandidate(SHARED, c) {
        assert c.provisional == 10 || c.provisional == 11;
        assert c.anchored in Twins(SHARED, c.provisional);
      }
    }
  }

  lemma SharedSettled(gate: Gate)
    requires Passes(gate, "X", "X")
    ensures var after := Settle(SHARED, Pair(10, 1), gate);
      after.sats == SHARED.sats - {10} && Twins(after, 11) == {1}
  {
    var b, t := Ident("cospar", "B", "gcat"), SHARED.identifiers;
    var after := Settle(SHARED, Pair(10, 1), gate);
    assert after.identifiers == Fold(t, 1, 10);
    assert Row(10, b, true) !in Colliding(t, 1, 10) by {
      assert "A" != "B" by { assert "A"[0] == 'A' && "B"[0] == 'B'; }
      assert b !in Keys(t, 1);
    }
    assert Row(1, b, true) == Move(Row(10, b, true), 1);
    SharedAfter(after);
  }

  /** A state like SHARED after its first run selects and promotes 11. */
  lemma SharedSecond(after: Db, gate: Gate)
    requires Passes(gate, "X", "X")
    requires after.sats == SHARED.sats - {10} && Twins(after, 11) == {1}
    ensures IsSelection(after, [Pair(11, 1)]) && Workable(after, [Pair(11, 1)])
    ensures Promotable(after, [Pair(11, 1)], gate) == {11}
  {
    forall c: Pair ensures c in [Pair(11, 1)] <==> IsCandidate(after, c) {
      if IsCandidate(after, c) {
        assert c.provisional == 11;
        assert c.anchored in Twins(after, c.provisional);
      }
    }
    assert Pair(11, 1) in [Pair(11, 1)];
  }

  /** Otherwise it may not be enough: the first run promotes 10, which hands the survivor a COSPAR that
      makes it the twin of 11, and the second run promotes 11. */
  lemma SecondRunMayPromoteMore(gate: Gate)
    requires Passes(gate, "X", "X")
    ensures var (first, second) := ([Pair(10, 1)], [Pair(11, 1)]);
      && IsSelection(SHARED, first) && Workable(SHARED, first)
      && var after := PromoteAll(SHARED, first, gate);
      && IsSelection(after, second) && Workable(after, second)
      && Promotable(after, second, gate) == {11}
  {
    var first := [Pair(10, 1)];
    SharedSelection();
    SelectionIsWorkable(SHARED, first);
    var after := Settle(SHARED, Pair(10, 1), gate);
    SharedSettled(gate);
    assert first[0] == Pair(10, 1) && first[1..] == [];
    SettleKeepsWorkable(SHARED, first, gate);
    assert PromoteAll(after, first[1..], gate) == after;
    assert PromoteAll(SHARED, first, gate) == after;
    SharedSecond(after, gate);
  }

  ghost function Sum(s: seq<nat>): nat {
    if s == [] then 0 else Sum(s[..|s| - 1]) + s[|s| - 1]
  }

  lemma SumAppend(s: seq<nat>, k: nat)
    ensures Sum(s + [k]) == Sum(s) + k
  {
    assert (s + [k])[..|s|] == s;
  }

  lemma {:induction false} SumAtLeast(s: seq<nat>)
    requires forall i :: 0 <= i < |s| ==> s[i] > 0
    ensures Sum(s) >= |s|
  {
    if s != [] { SumAtLeast(s[..|s| - 1]); }
  }
}
