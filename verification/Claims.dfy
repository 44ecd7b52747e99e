/** The temporal claim ledger: identity/claims.py on the tables of db/migrations/0023_claims.sql.

    `Ledger` is the committed content of `claim` and `claim_progress`; `Record` is the effect of
    one `record` transaction on it, including the two constraints that can abort it. The class
    `ClaimStore` runs the transaction statement by statement. The lemmas say that the claim table
    is the run-length encoding of the snapshots that were recorded. */
module Claims {
  import opened Wrappers

  /** What one row of a snapshot asserts. */
  datatype Triple = Triple(key: string, attribute: string, value: string)

  /** closed_run and observed_to are NULL together (constraint claim_closed_both). */
  datatype Closing = Closing(run: int, observedTo: int)

  datatype Claim = Claim(source: string, triple: Triple, firstRun: int, observedFrom: int,
                         closed: Option<Closing>)

  datatype Progress = Progress(lastRun: int, observedAt: int)

  datatype Ledger = Ledger(claims: set<Claim>, progress: map<string, Progress>)

  const EMPTY := Ledger({}, map[])

  /** One call of `record`. */
  datatype Call = Call(source: string, run: int, at: int, rows: seq<Triple>)

  datatype Outcome =
    | Refused                             // returned (0, 0) without touching anything
    | Aborted                             // a constraint failed and the transaction rolled back
    | Recorded(closedRows: nat, newRows: nat)

  ghost function Rows(call: Call): set<Triple> {
    set t | t in call.rows
  }

  // ----- the constraints of the claim table ---------------------------------------------

  predicate SameSlot(a: Triple, b: Triple) {
    a.key == b.key && a.attribute == b.attribute
  }

  /** The unique index claim_open_uq: one open claim per (source, key, attribute). */
  ghost predicate UniqueOpen(claims: set<Claim>) {
    forall c, d | c in claims && d in claims && c.closed.None? && d.closed.None?
      && c.source == d.source && SameSlot(c.triple, d.triple) :: c == d
  }

  /** One value per (key, attribute): what a well-formed snapshot gives. */
  ghost predicate Functional(rows: set<Triple>) {
    forall a, b :: a in rows && b in rows && SameSlot(a, b) ==> a == b
  }

  // ----- one transaction ----------------------------------------------------------------

  function Open(claims: set<Claim>, source: string): set<Claim> {
    set c | c in claims && c.source == source && c.closed.None?
  }

  /** What the feed currently says, according to the ledger. */
  function Held(claims: set<Claim>, source: string): set<Triple> {
    set c | c in Open(claims, source) :: c.triple
  }

  predicate Stale(ledger: Ledger, call: Call) {
    call.source in ledger.progress && call.run <= ledger.progress[call.source].lastRun
  }

  /** The last time the feed was observed before this call. */
  function Seen(ledger: Ledger, call: Call): int {
    if call.source in ledger.progress then ledger.progress[call.source].observedAt else call.at
  }

  function ToClose(claims: set<Claim>, call: Call): set<Claim> {
    set c | c in Open(claims, call.source) && c.triple !in call.rows
  }

  function Close(c: Claim, run: int, seen: int): Claim {
    c.(closed := Some(Closing(run, seen)))
  }

  /** The closing UPDATE. */
  function AfterClose(claims: set<Claim>, call: Call, seen: int): set<Claim> {
    (claims - ToClose(claims, call)) + set c | c in ToClose(claims, call) :: Close(c, call.run, seen)
  }

  /** The rows the INSERT selects; its NOT EXISTS guard looks at the slot, not at the value. */
  function ToOpen(claims: set<Claim>, call: Call): set<Triple> {
    set t | t in call.rows && forall c :: c in Open(claims, call.source) ==> !SameSlot(c.triple, t)
  }

  function OpenClaims(triples: set<Triple>, call: Call): set<Claim> {
    set t | t in triples :: Claim(call.source, t, call.run, call.at, None)
  }

  /** The CHECK claim_range fails on a row being closed. */
  predicate RangeViolated(claims: set<Claim>, call: Call, seen: int) {
    exists c :: c in ToClose(claims, call) && seen < c.observedFrom
  }

  /** The unique index fails on the rows being inserted. */
  predicate SlotCollides(triples: set<Triple>) {
    exists a, b :: a in triples && b in triples && SameSlot(a, b) && a != b
  }

  /** `record`, as one atomic change of the committed tables. */
  function Record(ledger: Ledger, call: Call): (Ledger, Outcome) {
    if call.rows == [] || Stale(ledger, call) then (ledger, Refused)
    else
      var seen := Seen(ledger, call);
      if RangeViolated(ledger.claims, call, seen) then (ledger, Aborted)
      else
        var closing := AfterClose(ledger.claims, call, seen);
        var opening := ToOpen(closing, call);
        if SlotCollides(opening) then (ledger, Aborted)
        else
          (Ledger(closing + OpenClaims(opening, call),
                  ledger.progress[call.source := Progress(call.run, call.at)]),
           Recorded(|ToClose(ledger.claims, call)|, |opening|))
  }

  /** The claim and claim_progress tables, changed in place one statement at a time. */
  class ClaimStore {
    var claims: set<Claim>
    var progress: map<string, Progress>

    ghost function Contents(): Ledger
      reads this
    {
      Ledger(claims, progress)
    }

    constructor ()
      ensures Contents() == EMPTY
    {
      claims, progress := {}, map[];
    }

    /** A failed constraint leaves the tables as they were: the caller's transaction rolls back. */
    method RecordRun(source: string, run: int, at: int, rows: seq<Triple>) returns (outcome: Outcome)
      modifies this
      ensures (Contents(), outcome) == Record(old(Contents()), Call(source, run, at, rows))
    {
      if rows == [] {
        return Refused;
      }
      var call := Call(source, run, at, rows);
      var seen := at;
      if source in progress {
        if run <= progress[source].lastRun {
          return Refused;
        }
        seen := progress[source].observedAt;
      }
      var savepoint := claims;
      var closing := ToClose(claims, call);
      if exists c :: c in closing && seen < c.observedFrom {
        return Aborted;
      }
      claims := (claims - closing) + set c | c in closing :: Close(c, run, seen);
      var opening := ToOpen(claims, call);
      if SlotCollides(opening) {
        claims := savepoint;
        return Aborted;
      }
      claims := claims + OpenClaims(opening, call);
      progress := progress[source := Progress(run, at)];
      outcome := Recorded(|closing|, |opening|);
    }
  }

  // ----- what one transaction means -----------------------------------------------------

  lemma SlotOfHeld(claims: set<Claim>, source: string)
    requires UniqueOpen(claims)
    ensures Functional(Held(claims, source))
    ensures forall c, d | c in Open(claims, source) && d in Open(claims, source)
      && c.triple == d.triple :: c == d
  {
  }

  /** After a recorded run the feed's open claims are rows of that run, one per slot, and a slot
      of the run is never left without one. */
  lemma RecordedHeld(ledger: Ledger, call: Call)
    requires UniqueOpen(ledger.claims)
    requires Record(ledger, call).1.Recorded?
    ensures var after := Record(ledger, call).0;
      && UniqueOpen(after.claims)
      && Held(after.claims, call.source) <= Rows(call)
      && Held(ledger.claims, call.source) * Rows(call) <= Held(after.claims, call.source)
      && forall t :: t in call.rows ==>
           exists u :: u in Held(after.claims, call.source) && SameSlot(u, t)
  {
    var after := Record(ledger, call).0;
    var closing := AfterClose(ledger.claims, call, Seen(ledger, call));
    var opening := ToOpen(closing, call);
    forall t | t in Held(ledger.claims, call.source) && t in Rows(call)
      ensures t in Held(after.claims, call.source)
    {
      var c :| c in Open(ledger.claims, call.source) && c.triple == t;
      assert c in Open(after.claims, call.source);
    }
    forall t | t in call.rows
      ensures exists u :: u in Held(after.claims, call.source) && SameSlot(u, t)
    {
      if t in opening {
        assert Claim(call.source, t, call.run, call.at, None) in Open(after.claims, call.source);
        assert t in Held(after.claims, call.source);
      } else {
        var c :| c in Open(closing, call.source) && SameSlot(c.triple, t);
        assert c in Open(after.claims, call.source);
        assert c.triple in Held(after.claims, call.source);
      }
    }
  }

  /** The open claims equal the recorded run's rows exactly when that run gives each slot one
      value: the insert guard compares slots, so a second value for a slot is dropped silently. */
  lemma HeldIsRowsIffFunctional(ledger: Ledger, call: Call)
    requires UniqueOpen(ledger.claims)
    requires Record(ledger, call).1.Recorded?
    ensures Held(Record(ledger, call).0.claims, call.source) == Rows(call) <==> Functional(Rows(call))
  {
    RecordedHeld(ledger, call);
    var held := Held(Record(ledger, call).0.claims, call.source);
    SlotOfHeld(Record(ledger, call).0.claims, call.source);
    if Functional(Rows(call)) {
      forall t | t in Rows(call) ensures t in held {
        var u :| u in held && SameSlot(u, t);
        assert u in Rows(call);
      }
    }
  }

  /** The limit just named, on a concrete ledger: both values of one slot are asserted, one is
      already open, and the transaction reports success with the other value missing. */
  lemma SecondValueIsLost()
    ensures
      var a, b := Triple("1", "owner", "A"), Triple("1", "owner", "B");
      var ledger := Ledger({Claim("gcat", a, 1, 10, None)}, map["gcat" := Progress(1, 10)]);
      var (after, outcome) := Record(ledger, Call("gcat", 2, 20, [a, b]));
      outcome == Recorded(0, 0) && b !in Held(after.claims, "gcat")
  {
    var a, b := Triple("1", "owner", "A"), Triple("1", "owner", "B");
    var open := Claim("gcat", a, 1, 10, None);
    var ledger := Ledger({open}, map["gcat" := Progress(1, 10)]);
    var call := Call("gcat", 2, 20, [a, b]);
    assert call.rows[0] == a && call.rows[1] == b;
    assert ToClose(ledger.claims, call) == {};
    assert AfterClose(ledger.claims, call, 10) == {open};
    assert open in Open({open}, "gcat");
    assert ToOpen({open}, call) == {};
  }

  lemma {:induction false} ImageCardinality(claims: set<Claim>, triples: set<Triple>)
    requires forall c, d :: c in claims && d in claims && c.triple == d.triple ==> c == d
    requires triples == set c | c in claims :: c.triple
    ensures |claims| == |triples|
  {
    if claims != {} {
      var c :| c in claims;
      var rest := claims - {c};
      ImageCardinality(rest, set d | d in rest :: d.triple);
      assert triples - {c.triple} == set d | d in rest :: d.triple;
    } else {
      assert triples == {};
    }
  }

  /** The inserted triples are what the feed says now and did not say before. */
  lemma OpeningIsNew(ledger: Ledger, call: Call)
    requires UniqueOpen(ledger.claims)
    requires Record(ledger, call).1.Recorded?
    ensures ToOpen(AfterClose(ledger.claims, call, Seen(ledger, call)), call)
         == Held(Record(ledger, call).0.claims, call.source) - Held(ledger.claims, call.source)
  {
    var after := Record(ledger, call).0.claims;
    var closing := AfterClose(ledger.claims, call, Seen(ledger, call));
    var opening := ToOpen(closing, call);
    forall t | t in opening
      ensures t in Held(after, call.source) && t !in Held(ledger.claims, call.source)
    {
      assert Claim(call.source, t, call.run, call.at, None) in Open(after, call.source);
      forall c | c in Open(ledger.claims, call.source) ensures c.triple != t {
        if c !in ToClose(ledger.claims, call) { assert c in Open(closing, call.source); }
      }
    }
    forall t | t in Held(after, call.source) && t !in Held(ledger.claims, call.source)
      ensures t in opening
    {
      var c :| c in Open(after, call.source) && c.triple == t;
      assert c !in Open(ledger.claims, call.source);
    }
  }

  /** The closed triples are what the feed said before and no longer says. */
  lemma ClosingIsGone(ledger: Ledger, call: Call)
    requires UniqueOpen(ledger.claims)
    requires Record(ledger, call).1.Recorded?
    ensures (set c | c in ToClose(ledger.claims, call) :: c.triple)
         == Held(ledger.claims, call.source) - Held(Record(ledger, call).0.claims, call.source)
  {
    var before := Held(ledger.claims, call.source);
    var after := Held(Record(ledger, call).0.claims, call.source);
    RecordedHeld(ledger, call);
    forall c | c in ToClose(ledger.claims, call) ensures c.triple in before - after {
      assert c.triple !in Rows(call);
    }
    forall t | t in before - after ensures exists c :: c in ToClose(ledger.claims, call) && c.triple == t {
      var c :| c in Open(ledger.claims, call.source) && c.triple == t;
      assert t !in Rows(call);
      assert c in ToClose(ledger.claims, call);
    }
  }

  /** The pair `record` returns is the sizes of the two differences between what the feed said
      before and what it says now. */
  lemma CountsAreDifferences(ledger: Ledger, call: Call)
    requires UniqueOpen(ledger.claims)
    requires Record(ledger, call).1.Recorded?
    ensures var before := Held(ledger.claims, call.source);
      var after := Held(Record(ledger, call).0.claims, call.source);
      Record(ledger, call).1 == Recorded(|before - after|, |after - before|)
  {
    ClosingIsGone(ledger, call);
    OpeningIsNew(ledger, call);
    OpenImage(ledger.claims, ToClose(ledger.claims, call), call.source);
  }

  lemma OpenImage(claims: set<Claim>, some: set<Claim>, source: string)
    requires UniqueOpen(claims) && some <= Open(claims, source)
    ensures |some| == |set c | c in some :: c.triple|
  {
    SlotOfHeld(claims, source);
    ImageCardinality(some, set c | c in some :: c.triple);
  }

  /** A recorded run of one feed leaves every other feed's claims and progress alone, and one
      that is not recorded leaves everything alone. */
  lemma OthersUntouched(ledger: Ledger, call: Call, c: Claim, source: string)
    ensures var (after, outcome) := Record(ledger, call);
      && (c.source != call.source ==> (c in after.claims <==> c in ledger.claims))
      && (source != call.source ==>
            (source in after.progress <==> source in ledger.progress)
            && (source in ledger.progress ==> after.progress[source] == ledger.progress[source]))
      && (!outcome.Recorded? ==> after == ledger)
      && (Stale(ledger, call) || call.rows == [] ==> outcome == Refused)
  {
  }

  // ----- any history of calls -----------------------------------------------------------

  /** The tables after a history of calls, from an empty database. */
  ghost function Replay(calls: seq<Call>): Ledger {
    if calls == [] then EMPTY
    else Record(Replay(calls[..|calls| - 1]), calls[|calls| - 1]).0
  }

  /** A recorded run of a feed: the call, and what the feed held right after it. */
  datatype Entry = Entry(call: Call, held: set<Triple>)

  ghost function Extend(h: seq<Entry>, ledger: Ledger, call: Call, source: string): seq<Entry> {
    var (after, outcome) := Record(ledger, call);
    if call.source == source && outcome.Recorded? then h + [Entry(call, Held(after.claims, source))]
    else h
  }

  /** The runs of one feed that a history actually recorded, oldest first. */
  ghost function History(calls: seq<Call>, source: string): seq<Entry> {
    if calls == [] then []
    else
      var earlier := calls[..|calls| - 1];
      Extend(History(earlier, source), Replay(earlier), calls[|calls| - 1], source)
  }

  ghost predicate HeldDuring(h: seq<Entry>, t: Triple, i: int, j: int)
    requires 0 <= i <= j <= |h|
  {
    forall k :: i <= k < j ==> t in h[k].held
  }

  /** Entries i to j - 1 are a maximal stretch of runs holding the claim's triple, and the claim's
      columns name its ends: opened by run i, closed by run j, last observed by run j - 1. */
  ghost predicate Stretch(h: seq<Entry>, c: Claim, i: int, j: int) {
    && 0 <= i < j <= |h|
    && HeldDuring(h, c.triple, i, j)
    && (i > 0 ==> c.triple !in h[i - 1].held)
    && (j < |h| ==> c.triple !in h[j].held)
    && c.firstRun == h[i].call.run
    && c.observedFrom == h[i].call.at
    && c.closed == (if j == |h| then None else Some(Closing(h[j].call.run, h[j - 1].call.at)))
  }

  ghost predicate IsStretch(h: seq<Entry>, c: Claim) {
    exists i, j :: Stretch(h, c, i, j)
  }

  ghost function LastHeld(h: seq<Entry>): set<Triple> {
    if h == [] then {} else h[|h| - 1].held
  }

  /** The claim table is the run-length encoding of one feed's recorded runs. */
  ghost predicate Encodes(claims: set<Claim>, source: string, h: seq<Entry>) {
    && Held(claims, source) == LastHeld(h)
    && forall c: Claim :: c.source == source ==> (c in claims <==> IsStretch(h, c))
  }

  ghost predicate Ascending(h: seq<Entry>) {
    forall i, j :: 0 <= i < j < |h| ==> h[i].call.run < h[j].call.run
  }

  /** claim_progress names the feed's last recorded run and its observation time. */
  ghost predicate ProgressMatches(progress: map<string, Progress>, source: string, h: seq<Entry>) {
    && (source in progress <==> h != [])
    && (h != [] ==> progress[source] == Progress(h[|h| - 1].call.run, h[|h| - 1].call.at))
  }

  /** What was held after a run is one value per slot, and equals the run's rows exactly when
      they are one value per slot. */
  ghost predicate Faithful(h: seq<Entry>) {
    forall i :: 0 <= i < |h| ==>
      Functional(h[i].held) && (h[i].held == Rows(h[i].call) <==> Functional(Rows(h[i].call)))
  }

  lemma HeldDuringAppend(h: seq<Entry>, e: Entry, t: Triple, i: int, j: int)
    requires 0 <= i <= j <= |h|
    ensures HeldDuring(h + [e], t, i, j) <==> HeldDuring(h, t, i, j)
  {
    forall k | i <= k < j ensures (h + [e])[k] == h[k] {}
    if HeldDuring(h + [e], t, i, j) {
      forall k | i <= k < j ensures t in h[k].held { assert (h + [e])[k] == h[k]; }
    }
  }

  /** How one recorded run changes one feed's claim rows, stated on what the feed held. */
  ghost predicate RowChange(before: set<Claim>, after: set<Claim>, h: seq<Entry>, e: Entry, c: Claim) {
    c in after <==>
      || (c in before && (c.closed.Some? || c.triple in e.held))
      || (h != [] && c.closed == Some(Closing(e.call.run, h[|h| - 1].call.at))
          && c.(closed := None) in before && c.triple !in e.held)
      || (c.closed.None? && c.firstRun == e.call.run && c.observedFrom == e.call.at
          && c.triple in e.held && c.triple !in LastHeld(h))
  }

  lemma RecordChangesRows(ledger: Ledger, call: Call, h: seq<Entry>, c: Claim)
    requires UniqueOpen(ledger.claims) && Record(ledger, call).1.Recorded?
    requires Held(ledger.claims, call.source) == LastHeld(h)
    requires ProgressMatches(ledger.progress, call.source, h)
    requires c.source == call.source
    ensures var after := Record(ledger, call).0.claims;
      RowChange(ledger.claims, after, h, Entry(call, Held(after, call.source)), c)
  {
    var after := Record(ledger, call).0.claims;
    var seen := Seen(ledger, call);
    var closing := AfterClose(ledger.claims, call, seen);
    OpeningIsNew(ledger, call);
    if c in ledger.claims && c.closed.None? { OpenRowStays(ledger, call, c); }
    if c.(closed := None) in ledger.claims { OpenRowStays(ledger, call, c.(closed := None)); }
    MemberOfClosing(ledger.claims, call, seen, c);
    MemberOfOpening(ToOpen(closing, call), call, c);
    assert after == closing + OpenClaims(ToOpen(closing, call), call);
  }

  lemma OpenRowStays(ledger: Ledger, call: Call, c: Claim)
    requires UniqueOpen(ledger.claims) && Record(ledger, call).1.Recorded?
    requires c.source == call.source && c in ledger.claims && c.closed.None?
    ensures c.triple in Held(ledger.claims, call.source)
    ensures c.triple in Held(Record(ledger, call).0.claims, call.source) <==> c.triple in call.rows
  {
    RecordedHeld(ledger, call);
    assert c in Open(ledger.claims, call.source);
    assert c.triple in Rows(call) <==> c.triple in call.rows;
  }

  lemma MemberOfClosing(claims: set<Claim>, call: Call, seen: int, c: Claim)
    requires c.source == call.source
    ensures c in AfterClose(claims, call, seen) <==>
      || (c in claims && (c.closed.Some? || c.triple in call.rows))
      || (c.closed == Some(Closing(call.run, seen)) && c.(closed := None) in claims
          && c.triple !in call.rows)
  {
    var was := c.(closed := None);
    assert c.closed == Some(Closing(call.run, seen)) ==> c == Close(was, call.run, seen);
    assert was in claims && c.triple !in call.rows ==> was in ToClose(claims, call);
  }

  lemma MemberOfOpening(triples: set<Triple>, call: Call, c: Claim)
    ensures c in OpenClaims(triples, call)
       <==> c.triple in triples && c == Claim(call.source, c.triple, call.run, call.at, None)
  {
  }

  lemma StretchOfRow(before: set<Claim>, after: set<Claim>, source: string, h: seq<Entry>, e: Entry,
                     c: Claim)
    requires Encodes(before, source, h) && c.source == source
    requires RowChange(before, after, h, e, c) && c in after
    ensures IsStretch(h + [e], c)
  {
    var n, g := |h|, h + [e];
    var was := c.(closed := None);
    if c in before {
      var i, j :| Stretch(h, c, i, j);
      HeldDuringAppend(h, e, c.triple, i, j);
      assert Stretch(g, c, i, if j < n then j else n + 1);
    } else if c.closed.Some? {
      var i, j :| Stretch(h, was, i, j);
      HeldDuringAppend(h, e, c.triple, i, j);
      assert Stretch(g, c, i, n);
    } else {
      assert Stretch(g, c, n, n + 1);
    }
  }

  lemma RowOfStretch(before: set<Claim>, after: set<Claim>, source: string, h: seq<Entry>, e: Entry,
                     c: Claim, i: int, j: int)
    requires Encodes(before, source, h) && c.source == source
    requires RowChange(before, after, h, e, c) && Stretch(h + [e], c, i, j)
    ensures c in after
  {
    var n := |h|;
    if j < n {
      HeldDuringAppend(h, e, c.triple, i, j);
      assert Stretch(h, c, i, j);
    } else if j == n {
      HeldDuringAppend(h, e, c.triple, i, j);
      assert Stretch(h, c.(closed := None), i, n);
    } else if i < n {
      assert HeldDuring(h + [e], c.triple, i, n);
      HeldDuringAppend(h, e, c.triple, i, n);
      assert Stretch(h, c, i, n);
      assert (h + [e])[n] == e;
    } else {
      assert (h + [e])[n] == e;
    }
  }

  lemma EncodesStep(ledger: Ledger, source: string, h: seq<Entry>, call: Call)
    requires UniqueOpen(ledger.claims) && Encodes(ledger.claims, source, h)
    requires ProgressMatches(ledger.progress, source, h)
    requires call.source == source && Record(ledger, call).1.Recorded?
    ensures var after := Record(ledger, call).0.claims;
      Encodes(after, source, h + [Entry(call, Held(after, source))])
  {
    var after := Record(ledger, call).0.claims;
    var e := Entry(call, Held(after, source));
    forall c: Claim | c.source == source ensures c in after <==> IsStretch(h + [e], c) {
      RecordChangesRows(ledger, call, h, c);
      if c in after {
        StretchOfRow(ledger.claims, after, source, h, e, c);
      }
      if IsStretch(h + [e], c) {
        var i, j :| Stretch(h + [e], c, i, j);
        RowOfStretch(ledger.claims, after, source, h, e, c, i, j);
      }
    }
  }

  lemma EncodesOtherFeed(ledger: Ledger, source: string, h: seq<Entry>, call: Call)
    requires Encodes(ledger.claims, source, h) && call.source != source
    ensures Encodes(Record(ledger, call).0.claims, source, h)
  {
    var after := Record(ledger, call).0;
    forall c: Claim | c.source == source ensures c in after.claims <==> c in ledger.claims {
      OthersUntouched(ledger, call, c, source);
    }
    assert Open(after.claims, source) == Open(ledger.claims, source);
  }

  /** All that a feed's recorded history says about the tables. */
  ghost predicate Describes(ledger: Ledger, source: string, h: seq<Entry>) {
    && UniqueOpen(ledger.claims)
    && Encodes(ledger.claims, source, h)
    && ProgressMatches(ledger.progress, source, h)
    && Ascending(h)
    && Faithful(h)
  }

  lemma SequenceFactsGrow(h: seq<Entry>, e: Entry)
    requires Ascending(h) && Faithful(h)
    requires h != [] ==> h[|h| - 1].call.run < e.call.run
    requires Functional(e.held) && (e.held == Rows(e.call) <==> Functional(Rows(e.call)))
    ensures Ascending(h + [e]) && Faithful(h + [e])
  {
  }

  lemma DescribesRecorded(ledger: Ledger, source: string, h: seq<Entry>, call: Call)
    requires Describes(ledger, source, h)
    requires call.source == source && Record(ledger, call).1.Recorded?
    ensures var after := Record(ledger, call).0;
      Describes(after, source, h + [Entry(call, Held(after.claims, source))])
  {
    var after := Record(ledger, call).0;
    RecordedHeld(ledger, call);
    EncodesStep(ledger, source, h, call);
    HeldIsRowsIffFunctional(ledger, call);
    SlotOfHeld(after.claims, source);
    SequenceFactsGrow(h, Entry(call, Held(after.claims, source)));
  }

  lemma DescribesStep(ledger: Ledger, source: string, h: seq<Entry>, call: Call)
    requires Describes(ledger, source, h)
    ensures Describes(Record(ledger, call).0, source, Extend(h, ledger, call, source))
  {
    if Record(ledger, call).1.Recorded? {
      if call.source == source {
        DescribesRecorded(ledger, source, h, call);
      } else {
        RecordedHeld(ledger, call);
        EncodesOtherFeed(ledger, source, h, call);
        OthersUntouched(ledger, call, Claim(source, Triple("", "", ""), 0, 0, None), source);
      }
    }
  }

  /** Whatever the calls, in whatever order, well formed or not: the claim table is the
      run-length encoding of the runs recorded for each feed, which strictly increase. */
  lemma {:induction false} LedgerEncodesHistory(calls: seq<Call>, source: string)
    ensures Describes(Replay(calls), source, History(calls, source))
  {
    if calls == [] {
      assert Held({}, source) == {};
    } else {
      var earlier := calls[..|calls| - 1];
      LedgerEncodesHistory(earlier, source);
      DescribesStep(Replay(earlier), source, History(earlier, source), calls[|calls| - 1]);
    }
  }

  // ----- reading the past ---------------------------------------------------------------

  /** The history query: what the feed said as of a run. */
  ghost function AsOf(claims: set<Claim>, source: string, run: int): set<Triple> {
    set c | c in claims && c.source == source && c.firstRun <= run
         && (c.closed.None? || run < c.closed.value.run) :: c.triple
  }

  /** Every maximal stretch around a run that holds a triple is found by walking both ways. */
  lemma StretchAround(h: seq<Entry>, t: Triple, n: nat) returns (i: nat, j: nat)
    requires n < |h| && t in h[n].held
    ensures i <= n < j <= |h|
    ensures forall k :: i <= k < j ==> t in h[k].held
    ensures i > 0 ==> t !in h[i - 1].held
    ensures j < |h| ==> t !in h[j].held
  {
    i, j := n, n + 1;
    while i > 0 && t in h[i - 1].held
      invariant i <= n
      invariant forall k :: i <= k <= n ==> t in h[k].held
    {
      i := i - 1;
    }
    while j < |h| && t in h[j].held
      invariant n < j <= |h|
      invariant forall k :: i <= k < j ==> t in h[k].held
    {
      j := j + 1;
    }
  }

  /** Every recorded run can be read back: the claims valid at it are what the feed held then,
      and they are exactly its rows if and only if it gave each slot one value. */
  lemma EveryRunReconstructs(calls: seq<Call>, source: string, n: nat)
    requires n < |History(calls, source)|
    ensures var e := History(calls, source)[n];
      && AsOf(Replay(calls).claims, source, e.call.run) == e.held
      && (AsOf(Replay(calls).claims, source, e.call.run) == Rows(e.call)
          <==> Functional(Rows(e.call)))
  {
    LedgerEncodesHistory(calls, source);
    var h, claims := History(calls, source), Replay(calls).claims;
    HeldAsOf(claims, source, h, n);
  }

  lemma HeldAsOf(claims: set<Claim>, source: string, h: seq<Entry>, n: nat)
    requires Encodes(claims, source, h) && Ascending(h) && n < |h|
    ensures AsOf(claims, source, h[n].call.run) == h[n].held
  {
    var run := h[n].call.run;
    forall t | t in AsOf(claims, source, run) ensures t in h[n].held {
      var c :| c in claims && c.source == source && c.firstRun <= run
        && (c.closed.None? || run < c.closed.value.run) && c.triple == t;
      var i, j :| Stretch(h, c, i, j);
      assert i <= n;
      assert n < j;
    }
    forall t | t in h[n].held ensures t in AsOf(claims, source, run) {
      var i, j := StretchAround(h, t, n);
      var c := Claim(source, t, h[i].call.run, h[i].call.at,
                     if j == |h| then None else Some(Closing(h[j].call.run, h[j - 1].call.at)));
      assert Stretch(h, c, i, j);
      assert c in claims;
      assert c.firstRun <= run;
    }
  }

  /** Two claims on one slot never overlap, and two with the same value are not even adjacent:
      each interval is as long as it can be. */
  lemma IntervalsDisjointAndMaximal(calls: seq<Call>, c: Claim, d: Claim)
    requires c in Replay(calls).claims && d in Replay(calls).claims && c != d
    requires c.source == d.source && SameSlot(c.triple, d.triple)
    requires c.firstRun <= d.firstRun
    ensures c.closed.Some? && c.closed.value.run <= d.firstRun
    ensures c.triple == d.triple ==> c.closed.value.run < d.firstRun
  {
    LedgerEncodesHistory(calls, c.source);
    var h := History(calls, c.source);
    assert IsStretch(h, c) && IsStretch(h, d);
    StretchesApart(h, c, d);
  }

  lemma StretchesApart(h: seq<Entry>, c: Claim, d: Claim)
    requires Faithful(h) && Ascending(h) && IsStretch(h, c) && IsStretch(h, d) && c != d
    requires c.source == d.source && SameSlot(c.triple, d.triple) && c.firstRun <= d.firstRun
    ensures c.closed.Some? && c.closed.value.run <= d.firstRun
    ensures c.triple == d.triple ==> c.closed.value.run < d.firstRun
  {
    var i, j :| Stretch(h, c, i, j);
    var k, l :| Stretch(h, d, k, l);
    assert i <= k;
    if k < j {
      // Both would be held after run k, which holds one value per slot.
      StretchesThatMeet(h, c, d, i, j, k, l);
    }
  }

  lemma StretchesThatMeet(h: seq<Entry>, c: Claim, d: Claim, i: int, j: int, k: int, l: int)
    requires Faithful(h) && c.source == d.source && SameSlot(c.triple, d.triple)
    requires Stretch(h, c, i, j) && Stretch(h, d, k, l) && i <= k < j
    ensures c == d
  {
    assert c.triple in h[k].held && d.triple in h[k].held;
    assert c.triple == d.triple;
  }

  /** A claim's observed_to is the observation time of the last run that still asserted it, and
      the run that closed it is the next recorded one. */
  lemma ObservedToIsLastObservation(calls: seq<Call>, c: Claim) returns (n: nat)
    requires c in Replay(calls).claims && c.closed.Some?
    ensures var h := History(calls, c.source);
      && n + 1 < |h|
      && c.triple in h[n].held && c.triple !in h[n + 1].held
      && c.closed == Some(Closing(h[n + 1].call.run, h[n].call.at))
  {
    LedgerEncodesHistory(calls, c.source);
    var h := History(calls, c.source);
    var i, j :| Stretch(h, c, i, j);
    n := j - 1;
  }

  /** The CHECK claim_range: no closed claim was last observed before it was first observed. */
  lemma {:induction false} RangesHold(calls: seq<Call>)
    ensures forall c :: c in Replay(calls).claims && c.closed.Some? ==>
      c.observedFrom <= c.closed.value.observedTo
  {
    if calls != [] {
      var earlier, call := calls[..|calls| - 1], calls[|calls| - 1];
      RangesHold(earlier);
      var before := Replay(earlier);
      if Record(before, call).1.Recorded? {
        forall c | c in Record(before, call).0.claims && c.closed.Some?
          ensures c.observedFrom <= c.closed.value.observedTo
        {
          if c !in before.claims {
            assert c.(closed := None) in ToClose(before.claims, call);
          }
        }
      }
    }
  }

  /** A newer, non-empty, one-value-per-slot snapshot is always recorded, provided the feed was
      last observed no earlier than its open claims were first observed. */
  lemma WellFormedRunIsRecorded(ledger: Ledger, call: Call)
    requires UniqueOpen(ledger.claims)
    requires call.rows != [] && !Stale(ledger, call) && Functional(Rows(call))
    requires forall c :: c in Open(ledger.claims, call.source) ==> c.observedFrom <= Seen(ledger, call)
    ensures Record(ledger, call).1.Recorded?
  {
    var opening := ToOpen(AfterClose(ledger.claims, call, Seen(ledger, call)), call);
    assert opening <= Rows(call);
  }

  // ----- one transaction, column by column ----------------------------------------------

  /** An open claim of the feed. */
  predicate IsOpen(c: Claim, source: string) { c.source == source && c.closed == None }

  /** The run still asserts the claim's key, attribute and value. */
  predicate Asserts(call: Call, c: Claim) { c.triple in call.rows }

  /** An open claim on the row's key and attribute that the run still asserts: it keeps the row out. */
  predicate Holds(claims: set<Claim>, call: Call, t: Triple) {
    exists c :: c in claims && IsOpen(c, call.source) && Asserts(call, c)
      && c.triple.key == t.key && c.triple.attribute == t.attribute
  }

  /** A claim the run no longer asserts was first observed after the feed's last observation. */
  predicate Backwards(ledger: Ledger, call: Call) {
    var seen := if call.source in ledger.progress then ledger.progress[call.source].observedAt else call.at;
    exists c :: c in ledger.claims && IsOpen(c, call.source) && !Asserts(call, c) && seen < c.observedFrom
  }

  /** Same key and attribute, another value. */
  predicate Disagree(a: Triple, b: Triple) { a.key == b.key && a.attribute == b.attribute && a.value != b.value }

  /** The run gives a key and attribute two values and no kept claim holds them out. */
  predicate TwoValues(ledger: Ledger, call: Call) {
    exists a, b :: a in call.rows && b in call.rows && Disagree(a, b) && !Holds(ledger.claims, call, a)
  }

  /** Which calls are refused, which abort, and which are recorded. */
  lemma OutcomeIff(ledger: Ledger, call: Call)
    ensures var outcome := Record(ledger, call).1;
      var refused := call.rows == []
        || (call.source in ledger.progress && call.run <= ledger.progress[call.source].lastRun);
      && (outcome == Refused <==> refused)
      && (outcome == Aborted <==> !refused && (Backwards(ledger, call) || TwoValues(ledger, call)))
  {
    var seen := Seen(ledger, call);
    RangeIff(ledger, call);
    CollidesIff(ledger, call, seen);
  }

  lemma RangeIff(ledger: Ledger, call: Call)
    ensures RangeViolated(ledger.claims, call, Seen(ledger, call)) <==> Backwards(ledger, call)
  {
    var seen := Seen(ledger, call);
    if RangeViolated(ledger.claims, call, seen) {
      var c :| c in ToClose(ledger.claims, call) && seen < c.observedFrom;
      assert c in ledger.claims && IsOpen(c, call.source) && !Asserts(call, c);
    }
  }

  lemma CollidesIff(ledger: Ledger, call: Call, seen: int)
    ensures SlotCollides(ToOpen(AfterClose(ledger.claims, call, seen), call)) <==> TwoValues(ledger, call)
  {
    var opening := ToOpen(AfterClose(ledger.claims, call, seen), call);
    forall t | t in call.rows ensures t in opening <==> !Holds(ledger.claims, call, t) {
      OpensIff(ledger.claims, call, seen, t);
    }
    if SlotCollides(opening) {
      var a, b :| a in opening && b in opening && SameSlot(a, b) && a != b;
      assert Disagree(a, b);
    }
    if TwoValues(ledger, call) {
      var a, b :| a in call.rows && b in call.rows && Disagree(a, b) && !Holds(ledger.claims, call, a);
      assert !Holds(ledger.claims, call, b);
      assert a in opening && b in opening && SameSlot(a, b);
    }
  }

  lemma OpensIff(claims: set<Claim>, call: Call, seen: int, t: Triple)
    requires t in call.rows
    ensures t in ToOpen(AfterClose(claims, call, seen), call) <==> !Holds(claims, call, t)
  {
    var closing := AfterClose(claims, call, seen);
    if Holds(claims, call, t) {
      var c :| c in claims && IsOpen(c, call.source) && Asserts(call, c)
        && c.triple.key == t.key && c.triple.attribute == t.attribute;
      assert c in Open(closing, call.source);
    }
    if t !in ToOpen(closing, call) {
      var c :| c in Open(closing, call.source) && SameSlot(c.triple, t);
      assert c in claims && IsOpen(c, call.source) && Asserts(call, c);
    }
  }

  /** What a recorded run leaves: the feed's open claims it no longer asserts are closed at this run, last
      observed at the feed's previous observation; its rows that no kept claim holds out are opened at
      this run and time; every other claim stays as it was, and the feed's progress is this run. */
  lemma RecordIs(ledger: Ledger, call: Call, c: Claim)
    requires Record(ledger, call).1.Recorded?
    ensures var after := Record(ledger, call).0;
      var seen := if call.source in ledger.progress then ledger.progress[call.source].observedAt else call.at;
      && (c in after.claims <==>
        || (c in ledger.claims && (!IsOpen(c, call.source) || Asserts(call, c)))
        || (c.closed == Some(Closing(call.run, seen)) && c.source == call.source && !Asserts(call, c)
            && c.(closed := None) in ledger.claims)
        || (c.triple in call.rows && !Holds(ledger.claims, call, c.triple)
            && c == Claim(call.source, c.triple, call.run, call.at, None)))
      && after.progress == ledger.progress[call.source := Progress(call.run, call.at)]
  {
    var seen := Seen(ledger, call);
    if c.triple in call.rows { OpensIff(ledger.claims, call, seen, c.triple); }
    var was := c.(closed := None);
    if c.closed == Some(Closing(call.run, seen)) && c.source == call.source && !Asserts(call, c) && was in ledger.claims {
      assert was in ToClose(ledger.claims, call) && c == Close(was, call.run, seen);
    }
    if c in AfterClose(ledger.claims, call, seen) && !(c in ledger.claims && c !in ToClose(ledger.claims, call)) {
      var d :| d in ToClose(ledger.claims, call) && c == Close(d, call.run, seen);
      assert was == d;
    }
  }
}
