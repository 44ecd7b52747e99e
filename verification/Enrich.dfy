/** Operator enrichment: identity/enrich_operators.py. Name normalisation and case folding are
    functions the model is given; operator ids are the positions of the rows. */
module Enrich {
  import opened Wrappers

  /** An organisation row; an absent text field is empty. */
  datatype Org = Org(name: string, eName: string, shortName: string, parent: string, start: int)

  /** A curated operator: its normalised names and its case-folded codes. */
  datatype SeedOp = SeedOp(name: string, names: seq<string>, gcat: seq<string>, satcat: seq<string>)

  /** What a run reads besides the tables: the org snapshot, the owner codes of both catalogs in
      sorted order, the documented owner names, and the seed. */
  datatype Inputs = Inputs(
    orgs: map<string, Org>,
    gcatCodes: seq<string>,
    satcatCodes: seq<string>,
    documented: map<string, string>,
    seed: seq<SeedOp>,
    norm: string -> string,
    foldCase: string -> string)

  datatype Alias = Alias(op: nat, text: string, source: string)

  /** A `subsidiary_of` row. */
  datatype Edge = Edge(child: nat, parent: nat, start: int, source: string)

  /** operator (canonical names), operator_alias and operator_relationship, rows in insertion order. */
  datatype Db = Db(ops: seq<string>, aliases: seq<Alias>, edges: set<Edge>)

  datatype Fault = DuplicateKey(child: nat, parent: nat)

  const GCAT := "gcat_orgs"
  const SATCAT := "satcat_sources"

  /** `_nkey`: the empty key never matches. */
  function Key(inp: Inputs, s: string): string { if s == "" then "" else inp.norm(s) }

  function Folded(inp: Inputs, s: string): string { inp.foldCase(s) }

  // ----- look-ups -----------------------------------------------------------------------

  function IdOf(ops: seq<string>, name: string): (r: Option<nat>)
    ensures r.Some? <==> name in ops
    ensures r.Some? ==> r.value < |ops| && ops[r.value] == name
  {
    if ops == [] then None
    else
      var front := IdOf(ops[..|ops| - 1], name);
      if front.Some? then front else if ops[|ops| - 1] == name then Some(|ops| - 1) else None
  }

  /** The first operator whose canonical name has the key. */
  function OpByKey(inp: Inputs, ops: seq<string>, key: string): (r: Option<nat>)
    ensures r.None? <==> forall i :: 0 <= i < |ops| ==> Key(inp, ops[i]) != key
    ensures r.Some? ==> r.value < |ops|
  {
    if ops == [] then None
    else
      var front := OpByKey(inp, ops[..|ops| - 1], key);
      if front.Some? then front
      else if Key(inp, ops[|ops| - 1]) == key then Some(|ops| - 1) else None
  }

  function AliasByKey(inp: Inputs, aliases: seq<Alias>, key: string): Option<nat> {
    if aliases == [] then None
    else
      var front := AliasByKey(inp, aliases[..|aliases| - 1], key);
      if front.Some? then front
      else if Key(inp, aliases[|aliases| - 1].text) == key then Some(aliases[|aliases| - 1].op)
      else None
  }

  /** Canonical names first, then aliases; the first row wins. */
  function ByKey(inp: Inputs, db: Db, key: string): Option<nat> {
    if key == "" then None
    else if OpByKey(inp, db.ops, key).Some? then OpByKey(inp, db.ops, key)
    else AliasByKey(inp, db.aliases, key)
  }

  /** The operator a code's own alias points at; the last row read wins. */
  function Existing(inp: Inputs, aliases: seq<Alias>): map<string, nat> {
    if aliases == [] then map[]
    else
      var front, last := Existing(inp, aliases[..|aliases| - 1]), aliases[|aliases| - 1];
      if last.source == GCAT && last.text in inp.orgs then front[last.text := last.op] else front
  }

  datatype SeedField = ByGcat | BySatcat | ByName

  predicate SeedLists(op: SeedOp, field: SeedField, value: string) {
    match field
    case ByGcat => value in op.gcat
    case BySatcat => value in op.satcat
    case ByName => value in op.names
  }

  /** The seed operator that lists a value, among those whose name is an operator. */
  function SeedFor(seed: seq<SeedOp>, ops: seq<string>, field: SeedField, value: string): Option<nat> {
    if seed == [] then None
    else if IdOf(ops, seed[0].name).Some? && SeedLists(seed[0], field, value) then IdOf(ops, seed[0].name)
    else SeedFor(seed[1..], ops, field, value)
  }

  function SeedByName(inp: Inputs, ops: seq<string>, text: string): Option<nat> {
    if Key(inp, text) == "" then None else SeedFor(inp.seed, ops, ByName, Key(inp, text))
  }

  /** `_seed_target_gcat`: by code, then by Name, EName and ShortName. */
  function SeedTarget(inp: Inputs, ops: seq<string>, code: string, org: Org): Option<nat> {
    var byCode := SeedFor(inp.seed, ops, ByGcat, Folded(inp, code));
    if byCode.Some? then byCode
    else if SeedByName(inp, ops, org.name).Some? then SeedByName(inp, ops, org.name)
    else if SeedByName(inp, ops, org.eName).Some? then SeedByName(inp, ops, org.eName)
    else SeedByName(inp, ops, org.shortName)
  }

  predicate Ascii(s: string) { forall i :: 0 <= i < |s| ==> s[i] < 128 as char }

  function DisplayName(code: string, org: Org): string {
    var name := if org.name != "" && !Ascii(org.name) && org.eName != "" then org.eName else org.name;
    if name != "" then name
    else if org.eName != "" then org.eName
    else if org.shortName != "" then org.shortName
    else code
  }

  function Suffixed(name: string, code: string): string { name + " (" + code + ")" }

  // ----- statements ---------------------------------------------------------------------

  /** INSERT ... ON CONFLICT DO NOTHING on operator_alias. */
  function Attach(db: Db, op: nat, text: string, source: string): Db {
    if Alias(op, text, source) in db.aliases then db
    else db.(aliases := db.aliases + [Alias(op, text, source)])
  }

  function InsertName(db: Db, name: string): Db {
    if name in db.ops then db else db.(ops := db.ops + [name])
  }

  function ChosenName(db: Db, desired: string, code: string): string {
    if desired in db.ops then Suffixed(desired, code) else desired
  }

  /** `_insert_operator`. */
  function Insert(db: Db, desired: string, code: string): (r: (Db, nat))
    ensures r.1 < |r.0.ops| && r.0.ops[r.1] == ChosenName(db, desired, code)
    ensures desired in r.0.ops
  {
    var name := ChosenName(db, desired, code);
    var after := InsertName(db, name);
    (after, IdOf(after.ops, name).value)
  }

  function AttachName(inp: Inputs, db: Db, op: nat, text: string): Db {
    if text != "" && text !in inp.orgs then Attach(db, op, text, GCAT) else db
  }

  /** `_attach_name_variants`: never a value that is itself an org code. */
  function AttachNames(inp: Inputs, db: Db, op: nat, org: Org): Db {
    AttachName(inp, AttachName(inp, AttachName(inp, db, op, org.shortName), op, org.name), op, org.eName)
  }

  // ----- GCAT owner codes ---------------------------------------------------------------

  /** The operator of a new code: the seed's, or a new one under the org's name. `base` is what the
      seed was resolved against. */
  function Place(inp: Inputs, base: seq<string>, db: Db, code: string, org: Org): (Db, nat) {
    var seeded := SeedTarget(inp, base, code, org);
    if seeded.Some? then (db, seeded.value) else Insert(db, DisplayName(code, org), code)
  }

  function GcatStep(inp: Inputs, base: seq<string>, db: Db, existing: map<string, nat>, code: string):
    (Db, map<string, nat>)
  {
    if code !in inp.orgs || code in existing then (db, existing)
    else
      var (placed, target) := Place(inp, base, db, code, inp.orgs[code]);
      (AttachNames(inp, Attach(placed, target, code, GCAT), target, inp.orgs[code]),
       existing[code := target])
  }

  /** The first n codes done. */
  function GcatRun(inp: Inputs, base: seq<string>, db: Db, existing: map<string, nat>, n: nat):
    (Db, map<string, nat>)
    requires n <= |inp.gcatCodes|
  {
    if n == 0 then (db, existing)
    else
      var (d, e) := GcatRun(inp, base, db, existing, n - 1);
      GcatStep(inp, base, d, e, inp.gcatCodes[n - 1])
  }

  // ----- parents ------------------------------------------------------------------------

  predicate UsedOrg(inp: Inputs, code: string) { code in inp.gcatCodes && code in inp.orgs }

  /** The edge a code asks for, when it has a parent among the used codes under another operator. */
  function WantedEdge(inp: Inputs, existing: map<string, nat>, code: string): Option<Edge> {
    if !UsedOrg(inp, code) || code !in existing then None
    else
      var org := inp.orgs[code];
      if org.parent == "" || !UsedOrg(inp, org.parent) || org.parent !in existing then None
      else if existing[org.parent] == existing[code] then None
      else Some(Edge(existing[code], existing[org.parent], org.start, GCAT))
  }

  predicate HasEdge(edges: set<Edge>, e: Edge) {
    exists f :: f in edges && f.child == e.child && f.parent == e.parent && f.source == e.source
  }

  /** The primary key leaves the source out. */
  predicate KeyTaken(edges: set<Edge>, e: Edge) {
    exists f :: f in edges && f.child == e.child && f.parent == e.parent && f.start == e.start
  }

  function EdgeStep(edges: set<Edge>, wanted: Option<Edge>): Result<set<Edge>, Fault> {
    if wanted.None? || HasEdge(edges, wanted.value) then Success(edges)
    else if KeyTaken(edges, wanted.value) then
      Failure(DuplicateKey(wanted.value.child, wanted.value.parent))
    else Success(edges + {wanted.value})
  }

  function EdgeRun(inp: Inputs, existing: map<string, nat>, edges: set<Edge>, n: nat):
    Result<set<Edge>, Fault>
    requires n <= |inp.gcatCodes|
  {
    if n == 0 then Success(edges)
    else
      var front := EdgeRun(inp, existing, edges, n - 1);
      if front.Failure? then front
      else EdgeStep(front.value, WantedEdge(inp, existing, inp.gcatCodes[n - 1]))
  }

  // ----- SATCAT owner codes -------------------------------------------------------------

  predicate Documented(inp: Inputs, code: string) {
    code in inp.documented && inp.documented[code] != ""
  }

  /** The operator found without creating one: the seed's by code, or the one a name matches. */
  function Found(inp: Inputs, base: seq<string>, names: map<string, nat>, code: string): Option<nat>
    requires Documented(inp, code)
  {
    var seeded := SeedFor(inp.seed, base, BySatcat, Folded(inp, code));
    var key := Key(inp, inp.documented[code]);
    if seeded.Some? then seeded
    else if key != "" && key in names then Some(names[key])
    else None
  }

  /** A new operator under the documented name, aliased and entered in the name table. */
  function Create(inp: Inputs, db: Db, names: map<string, nat>, code: string): (Db, map<string, nat>)
    requires Documented(inp, code)
  {
    var (d, target) := Insert(db, inp.documented[code], code);
    var key := Key(inp, inp.documented[code]);
    (Attach(d, target, code, SATCAT), if key != "" then names[key := target] else names)
  }

  function SatcatStep(inp: Inputs, base: seq<string>, db: Db, names: map<string, nat>, code: string):
    (Db, map<string, nat>)
  {
    if !Documented(inp, code) then (db, names)
    else
      var found := Found(inp, base, names, code);
      if found.Some? then (Attach(db, found.value, code, SATCAT), names)
      else Create(inp, db, names, code)
  }

  function SatcatRun(inp: Inputs, base: seq<string>, db: Db, names: map<string, nat>, n: nat):
    (Db, map<string, nat>)
    requires n <= |inp.satcatCodes|
  {
    if n == 0 then (db, names)
    else
      var (d, m) := SatcatRun(inp, base, db, names, n - 1);
      SatcatStep(inp, base, d, m, inp.satcatCodes[n - 1])
  }

  /** The keys of all canonical names and aliases. */
  function Keys(inp: Inputs, db: Db): set<string> {
    (set i | 0 <= i < |db.ops| :: Key(inp, db.ops[i])) +
    (set i | 0 <= i < |db.aliases| :: Key(inp, db.aliases[i].text))
  }

  /** `_all_names_cf` as a table. */
  function AllNames(inp: Inputs, db: Db): map<string, nat> {
    map k | k in Keys(inp, db) && ByKey(inp, db, k).Some? :: ByKey(inp, db, k).value
  }

  // ----- a run --------------------------------------------------------------------------

  function AfterGcat(inp: Inputs, db: Db): (Db, map<string, nat>) {
    GcatRun(inp, db.ops, db, Existing(inp, db.aliases), |inp.gcatCodes|)
  }

  function AfterEdges(inp: Inputs, db: Db): Result<Db, Fault> {
    var (d, existing) := AfterGcat(inp, db);
    var edges := EdgeRun(inp, existing, d.edges, |inp.gcatCodes|);
    if edges.Failure? then Failure(edges.error) else Success(d.(edges := edges.value))
  }

  /** `enrich`, as a function of the tables it starts from. */
  function Enriched(inp: Inputs, db: Db): Result<Db, Fault> {
    var mid := AfterEdges(inp, db);
    if mid.Failure? then mid
    else Success(SatcatRun(inp, db.ops, mid.value, AllNames(inp, mid.value), |inp.satcatCodes|).0)
  }

  // ----- rows are only ever added -------------------------------------------------------

  ghost predicate Grows(a: Db, b: Db) { a.ops <= b.ops && a.aliases <= b.aliases && a.edges <= b.edges }

  lemma {:induction false} IdOfPrefix(a: seq<string>, b: seq<string>, name: string)
    requires a <= b && name in a
    ensures IdOf(b, name) == IdOf(a, name)
  {
    if |a| < |b| {
      IdOfPrefix(a, b[..|b| - 1], name);
    } else {
      assert a == b;
    }
  }

  /** While every seed operator exists, what the seed says does not depend on later operators. */
  lemma {:induction false} SeedStable(
      seed: seq<SeedOp>, a: seq<string>, b: seq<string>, field: SeedField, value: string)
    requires a <= b && forall i :: 0 <= i < |seed| ==> seed[i].name in a
    ensures SeedFor(seed, b, field, value) == SeedFor(seed, a, field, value)
  {
    if seed != [] {
      IdOfPrefix(a, b, seed[0].name);
      SeedStable(seed[1..], a, b, field, value);
    }
  }

  lemma InsertFacts(db: Db, desired: string, code: string)
    ensures var (d, target) := Insert(db, desired, code);
      && Grows(db, d) && d.aliases == db.aliases && d.edges == db.edges
      && (d == db || d.ops == db.ops + [ChosenName(db, desired, code)])
  {
  }

  lemma AttachFacts(inp: Inputs, db: Db, op: nat, text: string, source: string)
    ensures Grows(db, Attach(db, op, text, source))
    ensures Alias(op, text, source) in Attach(db, op, text, source).aliases
    ensures Attach(db, op, text, source).ops == db.ops && Attach(db, op, text, source).edges == db.edges
    ensures Existing(inp, Attach(db, op, text, source).aliases) ==
      if Alias(op, text, source) !in db.aliases && source == GCAT && text in inp.orgs
        then Existing(inp, db.aliases)[text := op]
      else Existing(inp, db.aliases)
  {
    var row := Alias(op, text, source);
    assert (db.aliases + [row])[..|db.aliases|] == db.aliases;
  }

  lemma {:induction false} ExistingKnows(inp: Inputs, aliases: seq<Alias>, op: nat, code: string)
    requires Alias(op, code, GCAT) in aliases && code in inp.orgs
    ensures code in Existing(inp, aliases)
  {
    if aliases[|aliases| - 1] != Alias(op, code, GCAT) {
      ExistingKnows(inp, aliases[..|aliases| - 1], op, code);
    }
  }

  lemma GrowsTrans(a: Db, b: Db, c: Db)
    requires Grows(a, b) && Grows(b, c)
    ensures Grows(a, c)
  {
  }

  lemma AttachNameFacts(inp: Inputs, db: Db, op: nat, text: string)
    ensures var d := AttachName(inp, db, op, text);
      && Grows(db, d) && d.ops == db.ops && d.edges == db.edges
      && Existing(inp, d.aliases) == Existing(inp, db.aliases)
  {
    AttachFacts(inp, db, op, text, GCAT);
  }

  lemma AttachNamesFacts(inp: Inputs, db: Db, op: nat, org: Org)
    ensures var d := AttachNames(inp, db, op, org);
      && Grows(db, d) && d.ops == db.ops && d.edges == db.edges
      && Existing(inp, d.aliases) == Existing(inp, db.aliases)
  {
    var one := AttachName(inp, db, op, org.shortName);
    var two := AttachName(inp, one, op, org.name);
    AttachNameFacts(inp, db, op, org.shortName);
    AttachNameFacts(inp, one, op, org.name);
    AttachNameFacts(inp, two, op, org.eName);
    GrowsTrans(db, one, two);
    GrowsTrans(db, two, AttachName(inp, two, op, org.eName));
  }

  /** Nothing already known is forgotten or moved. */
  ghost predicate Extends(a: map<string, nat>, b: map<string, nat>) {
    forall c :: c in a ==> c in b && b[c] == a[c]
  }

  /** Every used code among the first n is known. */
  ghost predicate Knows(inp: Inputs, existing: map<string, nat>, n: nat)
    requires n <= |inp.gcatCodes|
  {
    forall i :: 0 <= i < n && inp.gcatCodes[i] in inp.orgs ==> inp.gcatCodes[i] in existing
  }

  /** What the GCAT pass keeps: `existing` is the code aliases of the tables it has reached. */
  ghost predicate Kept(inp: Inputs, db: Db, existing: map<string, nat>, d: Db, e: map<string, nat>) {
    && Grows(db, d) && d.edges == db.edges
    && e == Existing(inp, d.aliases)
    && Extends(existing, e)
  }

  lemma KeptTrans(
      inp: Inputs, a: Db, ea: map<string, nat>, b: Db, eb: map<string, nat>, c: Db, ec: map<string, nat>)
    requires Kept(inp, a, ea, b, eb) && Kept(inp, b, eb, c, ec)
    ensures Kept(inp, a, ea, c, ec)
  {
    GrowsTrans(a, b, c);
  }

  lemma PlaceFacts(inp: Inputs, base: seq<string>, db: Db, code: string, org: Org)
    ensures var placed := Place(inp, base, db, code, org).0;
      Grows(db, placed) && placed.aliases == db.aliases && placed.edges == db.edges
  {
    InsertFacts(db, DisplayName(code, org), code);
  }

  lemma AliasCodeFacts(inp: Inputs, db: Db, target: nat, code: string)
    requires code in inp.orgs && code !in Existing(inp, db.aliases)
    ensures Grows(db, Attach(db, target, code, GCAT)) && Attach(db, target, code, GCAT).edges == db.edges
    ensures Existing(inp, Attach(db, target, code, GCAT).aliases) == Existing(inp, db.aliases)[code := target]
  {
    if Alias(target, code, GCAT) in db.aliases { ExistingKnows(inp, db.aliases, target, code); }
    AttachFacts(inp, db, target, code, GCAT);
  }

  lemma GcatStepFacts(inp: Inputs, base: seq<string>, db: Db, existing: map<string, nat>, code: string)
    requires existing == Existing(inp, db.aliases)
    ensures var (d, e) := GcatStep(inp, base, db, existing, code);
      && Kept(inp, db, existing, d, e)
      && (code in inp.orgs ==> code in e)
  {
    if code in inp.orgs && code !in existing {
      var org := inp.orgs[code];
      var (placed, target) := Place(inp, base, db, code, org);
      PlaceFacts(inp, base, db, code, org);
      AliasCodeFacts(inp, placed, target, code);
      var coded := Attach(placed, target, code, GCAT);
      AttachNamesFacts(inp, coded, target, org);
      var named := AttachNames(inp, coded, target, org);
      GrowsTrans(db, placed, coded);
      GrowsTrans(db, coded, named);
    }
  }

  lemma {:induction false} GcatRunFacts(
      inp: Inputs, base: seq<string>, db: Db, existing: map<string, nat>, n: nat)
    requires n <= |inp.gcatCodes| && existing == Existing(inp, db.aliases)
    ensures var (d, e) := GcatRun(inp, base, db, existing, n);
      Kept(inp, db, existing, d, e) && Knows(inp, e, n)
  {
    if n > 0 {
      GcatRunFacts(inp, base, db, existing, n - 1);
      var (d, e) := GcatRun(inp, base, db, existing, n - 1);
      var code := inp.gcatCodes[n - 1];
      var r := GcatStep(inp, base, d, e, code);
      GcatStepFacts(inp, base, d, e, code);
      KeptTrans(inp, db, existing, d, e, r.0, r.1);
      KnowsMore(inp, e, r.1, n);
    }
  }

  lemma KnowsMore(inp: Inputs, a: map<string, nat>, b: map<string, nat>, n: nat)
    requires 0 < n <= |inp.gcatCodes| && Knows(inp, a, n - 1) && Extends(a, b)
    requires inp.gcatCodes[n - 1] in inp.orgs ==> inp.gcatCodes[n - 1] in b
    ensures Knows(inp, b, n)
  {
  }

  /** Once every used code has its own alias, the pass does nothing. */
  lemma {:induction false} GcatRunQuiet(
      inp: Inputs, base: seq<string>, db: Db, existing: map<string, nat>, n: nat)
    requires n <= |inp.gcatCodes|
    requires Knows(inp, existing, n)
    ensures GcatRun(inp, base, db, existing, n) == (db, existing)
  {
    if n > 0 { GcatRunQuiet(inp, base, db, existing, n - 1); }
  }

  /** The edge a code wants is there. */
  predicate EdgeDone(edges: set<Edge>, wanted: Option<Edge>) {
    wanted.None? || HasEdge(edges, wanted.value)
  }

  lemma EdgeDoneGrows(a: set<Edge>, b: set<Edge>, wanted: Option<Edge>)
    requires a <= b && EdgeDone(a, wanted)
    ensures EdgeDone(b, wanted)
  {
    if wanted.Some? {
      var f :| f in a && f.child == wanted.value.child && f.parent == wanted.value.parent &&
        f.source == wanted.value.source;
      assert f in b;
    }
  }

  lemma EdgeStepFacts(edges: set<Edge>, wanted: Option<Edge>)
    requires EdgeStep(edges, wanted).Success?
    ensures edges <= EdgeStep(edges, wanted).value
    ensures EdgeDone(EdgeStep(edges, wanted).value, wanted)
    ensures EdgeDone(edges, wanted) <==> EdgeStep(edges, wanted).value == edges
  {
    if !EdgeDone(edges, wanted) {
      assert wanted.value in EdgeStep(edges, wanted).value;
      assert wanted.value !in edges;
    }
  }

  lemma {:induction false} EdgeRunFacts(inp: Inputs, existing: map<string, nat>, edges: set<Edge>, n: nat)
    requires n <= |inp.gcatCodes| && EdgeRun(inp, existing, edges, n).Success?
    ensures var after := EdgeRun(inp, existing, edges, n).value;
      && edges <= after
      && (forall i :: 0 <= i < n ==> EdgeDone(after, WantedEdge(inp, existing, inp.gcatCodes[i])))
  {
    if n > 0 {
      EdgeRunFacts(inp, existing, edges, n - 1);
      var front := EdgeRun(inp, existing, edges, n - 1).value;
      var wanted := WantedEdge(inp, existing, inp.gcatCodes[n - 1]);
      EdgeStepFacts(front, wanted);
      var after := EdgeStep(front, wanted).value;
      forall i | 0 <= i < n ensures EdgeDone(after, WantedEdge(inp, existing, inp.gcatCodes[i])) {
        if i < n - 1 { EdgeDoneGrows(front, after, WantedEdge(inp, existing, inp.gcatCodes[i])); }
      }
    }
  }

  lemma {:induction false} EdgeRunQuiet(inp: Inputs, existing: map<string, nat>, edges: set<Edge>, n: nat)
    requires n <= |inp.gcatCodes|
    requires forall i :: 0 <= i < n ==> EdgeDone(edges, WantedEdge(inp, existing, inp.gcatCodes[i]))
    ensures EdgeRun(inp, existing, edges, n) == Success(edges)
  {
    if n > 0 { EdgeRunQuiet(inp, existing, edges, n - 1); }
  }

  // ----- SATCAT names -------------------------------------------------------------------

  /** A blank name stays blank when its code is appended in brackets. */
  ghost predicate BracketsVanish(inp: Inputs) {
    forall code :: Documented(inp, code) && Key(inp, inp.documented[code]) == "" ==>
      Key(inp, Suffixed(inp.documented[code], code)) == ""
  }

  /** The name table agrees with the rows, and holds every canonical name that has a key. */
  ghost predicate NamesTrack(inp: Inputs, db: Db, names: map<string, nat>) {
    && (forall k :: k in names ==> k != "" && ByKey(inp, db, k) == Some(names[k]))
    && (forall i :: 0 <= i < |db.ops| ==> Key(inp, db.ops[i]) == "" || Key(inp, db.ops[i]) in names)
  }

  lemma {:induction false} AliasByKeyHit(inp: Inputs, aliases: seq<Alias>, key: string)
    ensures AliasByKey(inp, aliases, key).Some? ==>
      exists i :: 0 <= i < |aliases| && Key(inp, aliases[i].text) == key
  {
    if aliases != [] {
      AliasByKeyHit(inp, aliases[..|aliases| - 1], key);
      if AliasByKey(inp, aliases[..|aliases| - 1], key).Some? {
        var i :| 0 <= i < |aliases| - 1 && Key(inp, aliases[..|aliases| - 1][i].text) == key;
        assert Key(inp, aliases[i].text) == key;
      }
    }
  }

  lemma AllNamesTrack(inp: Inputs, db: Db)
    ensures NamesTrack(inp, db, AllNames(inp, db))
    ensures forall k :: ByKey(inp, db, k).Some? ==> k in AllNames(inp, db)
  {
    forall k | ByKey(inp, db, k).Some? ensures k in AllNames(inp, db) {
      AliasByKeyHit(inp, db.aliases, k);
    }
    forall i | 0 <= i < |db.ops| && Key(inp, db.ops[i]) != ""
      ensures ByKey(inp, db, Key(inp, db.ops[i])).Some?
    {
    }
  }

  lemma AttachKeepsNames(inp: Inputs, db: Db, names: map<string, nat>, op: nat, text: string, source: string)
    requires NamesTrack(inp, db, names)
    ensures NamesTrack(inp, Attach(db, op, text, source), names)
  {
    var row := Alias(op, text, source);
    assert (db.aliases + [row])[..|db.aliases|] == db.aliases;
  }

  lemma AppendOp(inp: Inputs, ops: seq<string>, name: string, key: string)
    ensures OpByKey(inp, ops + [name], key) ==
      if OpByKey(inp, ops, key).Some? then OpByKey(inp, ops, key)
      else if Key(inp, name) == key then Some(|ops|) else None
  {
    assert (ops + [name])[..|ops|] == ops;
  }

  /** A new operator either has no key or a key no name had. */
  lemma AppendKeepsNames(inp: Inputs, db: Db, names: map<string, nat>, name: string)
    requires NamesTrack(inp, db, names)
    requires Key(inp, name) == "" || Key(inp, name) !in names
    ensures var d := db.(ops := db.ops + [name]);
      NamesTrack(inp, d, if Key(inp, name) == "" then names else names[Key(inp, name) := |db.ops|])
  {
    var d := db.(ops := db.ops + [name]);
    var after := if Key(inp, name) == "" then names else names[Key(inp, name) := |db.ops|];
    forall k | k in after ensures k != "" && ByKey(inp, d, k) == Some(after[k]) {
      AppendOp(inp, db.ops, name, k);
    }
  }

  /** What a new SATCAT operator is called: the bare name when it has a key, since a name with a key that
      nobody has is not taken. */
  lemma CreatedName(inp: Inputs, base: seq<string>, db: Db, names: map<string, nat>, code: string)
    requires NamesTrack(inp, db, names) && BracketsVanish(inp)
    requires Documented(inp, code) && Found(inp, base, names, code).None?
    ensures var name := ChosenName(db, inp.documented[code], code);
      && Key(inp, name) == Key(inp, inp.documented[code])
      && (Key(inp, name) != "" ==> name == inp.documented[code] && name !in db.ops)
      && (Key(inp, name) == "" || Key(inp, name) !in names)
  {
    var name := inp.documented[code];
    if name in db.ops {
      var i :| 0 <= i < |db.ops| && db.ops[i] == name;
      assert Key(inp, db.ops[i]) == "" || Key(inp, db.ops[i]) in names;
    }
  }

  lemma CreateFacts(inp: Inputs, base: seq<string>, db: Db, names: map<string, nat>, code: string)
    requires NamesTrack(inp, db, names) && BracketsVanish(inp)
    requires Documented(inp, code) && Found(inp, base, names, code).None?
    ensures var (d, target) := Insert(db, inp.documented[code], code);
      var key := Key(inp, inp.documented[code]);
      && Grows(db, d) && d.aliases == db.aliases && d.edges == db.edges
      && NamesTrack(inp, d, if key != "" then names[key := target] else names)
      && (key != "" ==> d != db && key !in names)
  {
    var name := ChosenName(db, inp.documented[code], code);
    CreatedName(inp, base, db, names, code);
    InsertFacts(db, inp.documented[code], code);
    if name !in db.ops {
      AppendKeepsNames(inp, db, names, name);
      var ops := db.ops + [name];
      assert ops[..|db.ops|] == db.ops;
      assert IdOf(ops, name) == Some(|db.ops|);
    }
  }

  /** What the SATCAT pass keeps. */
  ghost predicate Tracked(inp: Inputs, db: Db, names: map<string, nat>, d: Db, m: map<string, nat>) {
    && Grows(db, d) && d.edges == db.edges && NamesTrack(inp, d, m)
    && Existing(inp, d.aliases) == Existing(inp, db.aliases)
    && Extends(names, m)
    && (d == db ==> m == names)
  }

  lemma AttachTracked(
      inp: Inputs, db: Db, names: map<string, nat>, d: Db, m: map<string, nat>, op: nat, code: string)
    requires Tracked(inp, db, names, d, m)
    ensures Tracked(inp, db, names, Attach(d, op, code, SATCAT), m)
  {
    AttachFacts(inp, d, op, code, SATCAT);
    AttachKeepsNames(inp, d, m, op, code, SATCAT);
    var after := Attach(d, op, code, SATCAT);
    GrowsTrans(db, d, after);
    if after == db { assert d == db; }
  }

  lemma CreateTracked(inp: Inputs, base: seq<string>, db: Db, names: map<string, nat>, code: string)
    requires NamesTrack(inp, db, names) && BracketsVanish(inp)
    requires Documented(inp, code) && Found(inp, base, names, code).None?
    ensures var (d, m) := Create(inp, db, names, code);
      Tracked(inp, db, names, d, m)
  {
    var (d, target) := Insert(db, inp.documented[code], code);
    var key := Key(inp, inp.documented[code]);
    var m := if key != "" then names[key := target] else names;
    CreateFacts(inp, base, db, names, code);
    AttachTracked(inp, db, names, d, m, target, code);
  }

  lemma TrackedSelf(inp: Inputs, db: Db, names: map<string, nat>)
    requires NamesTrack(inp, db, names)
    ensures Tracked(inp, db, names, db, names)
  {
  }

  lemma SatcatStepFacts(inp: Inputs, base: seq<string>, db: Db, names: map<string, nat>, code: string)
    requires NamesTrack(inp, db, names) && BracketsVanish(inp)
    ensures var (d, m) := SatcatStep(inp, base, db, names, code);
      Tracked(inp, db, names, d, m)
  {
    TrackedSelf(inp, db, names);
    if Documented(inp, code) {
      var found := Found(inp, base, names, code);
      if found.Some? {
        AttachTracked(inp, db, names, db, names, found.value, code);
      } else {
        CreateTracked(inp, base, db, names, code);
      }
    }
  }

  lemma TrackedTrans(
      inp: Inputs, a: Db, na: map<string, nat>, b: Db, nb: map<string, nat>, c: Db, nc: map<string, nat>)
    requires Tracked(inp, a, na, b, nb) && Tracked(inp, b, nb, c, nc)
    ensures Tracked(inp, a, na, c, nc)
  {
    GrowsTrans(a, b, c);
    if c == a { GrowsBack(a, b, c); }
  }

  lemma GrowsBack(a: Db, b: Db, c: Db)
    requires Grows(a, b) && Grows(b, c) && c == a
    ensures b == a
  {
    assert |a.ops| <= |b.ops| <= |c.ops|;
    assert |a.aliases| <= |b.aliases| <= |c.aliases|;
    assert a.ops == b.ops && a.aliases == b.aliases && a.edges == b.edges;
  }

  /** A documented code without a seed operator whose name normalises to nothing. */
  predicate Blank(inp: Inputs, base: seq<string>, code: string) {
    && Documented(inp, code)
    && SeedFor(inp.seed, base, BySatcat, Folded(inp, code)).None?
    && Key(inp, inp.documented[code]) == ""
  }

  /** The operator a code that is not blank belongs to, once its name is in the table. */
  function OwnerOf(inp: Inputs, base: seq<string>, names: map<string, nat>, code: string): Option<nat> {
    if Documented(inp, code) then Found(inp, base, names, code) else None
  }

  /** The code has been dealt with: aliased to its operator or, when blank, its name is taken. */
  ghost predicate Dealt(inp: Inputs, base: seq<string>, db: Db, names: map<string, nat>, code: string) {
    Documented(inp, code) ==>
      if Blank(inp, base, code) then inp.documented[code] in db.ops
      else
        var owner := OwnerOf(inp, base, names, code);
        owner.Some? && Alias(owner.value, code, SATCAT) in db.aliases
  }

  lemma DealtStays(
      inp: Inputs, base: seq<string>, a: Db, na: map<string, nat>, b: Db, nb: map<string, nat>,
      code: string)
    requires Dealt(inp, base, a, na, code) && Tracked(inp, a, na, b, nb)
    ensures Dealt(inp, base, b, nb, code)
  {
    if Documented(inp, code) && !Blank(inp, base, code) {
      assert OwnerOf(inp, base, nb, code) == OwnerOf(inp, base, na, code);
    }
  }

  lemma StepDeals(inp: Inputs, base: seq<string>, db: Db, names: map<string, nat>, code: string)
    requires NamesTrack(inp, db, names) && BracketsVanish(inp)
    ensures var (d, m) := SatcatStep(inp, base, db, names, code);
      Dealt(inp, base, d, m, code)
  {
    if Documented(inp, code) {
      var found := Found(inp, base, names, code);
      if found.Some? {
        AttachFacts(inp, db, found.value, code, SATCAT);
      } else {
        CreateDeals(inp, base, db, names, code);
      }
    }
  }

  lemma CreateDeals(inp: Inputs, base: seq<string>, db: Db, names: map<string, nat>, code: string)
    requires Documented(inp, code) && Found(inp, base, names, code).None?
    ensures var (d, m) := Create(inp, db, names, code);
      Dealt(inp, base, d, m, code)
  {
    var (d, target) := Insert(db, inp.documented[code], code);
    AttachFacts(inp, d, target, code, SATCAT);
    assert inp.documented[code] in d.ops;
  }

  ghost predicate AllDealt(inp: Inputs, base: seq<string>, db: Db, names: map<string, nat>, n: nat)
    requires n <= |inp.satcatCodes|
  {
    forall i :: 0 <= i < n ==> Dealt(inp, base, db, names, inp.satcatCodes[i])
  }

  lemma {:induction false} SatcatRunFacts(
      inp: Inputs, base: seq<string>, db: Db, names: map<string, nat>, n: nat)
    requires n <= |inp.satcatCodes| && NamesTrack(inp, db, names) && BracketsVanish(inp)
    ensures var (d, m) := SatcatRun(inp, base, db, names, n);
      Tracked(inp, db, names, d, m) && AllDealt(inp, base, d, m, n)
  {
    if n > 0 {
      SatcatRunFacts(inp, base, db, names, n - 1);
      var (d, m) := SatcatRun(inp, base, db, names, n - 1);
      var code := inp.satcatCodes[n - 1];
      var r := SatcatStep(inp, base, d, m, code);
      SatcatStepFacts(inp, base, d, m, code);
      TrackedTrans(inp, db, names, d, m, r.0, r.1);
      StepDeals(inp, base, d, m, code);
      forall i | 0 <= i < n ensures Dealt(inp, base, r.0, r.1, inp.satcatCodes[i]) {
        if i < n - 1 { DealtStays(inp, base, d, m, r.0, r.1, inp.satcatCodes[i]); }
      }
    }
  }

  ghost predicate Quiet(inp: Inputs, base: seq<string>, db: Db, names: map<string, nat>, code: string) {
    SatcatStep(inp, base, db, names, code).0 == db
  }

  /** The pass adds no row exactly when no code would add one on its own. */
  lemma {:induction false} SatcatQuietIff(
      inp: Inputs, base: seq<string>, db: Db, names: map<string, nat>, n: nat)
    requires n <= |inp.satcatCodes| && NamesTrack(inp, db, names) && BracketsVanish(inp)
    ensures SatcatRun(inp, base, db, names, n).0 == db <==>
      forall i :: 0 <= i < n ==> Quiet(inp, base, db, names, inp.satcatCodes[i])
  {
    if n > 0 {
      SatcatQuietIff(inp, base, db, names, n - 1);
      SatcatRunFacts(inp, base, db, names, n - 1);
      var (d, m) := SatcatRun(inp, base, db, names, n - 1);
      var code := inp.satcatCodes[n - 1];
      SatcatStepFacts(inp, base, d, m, code);
      var after := SatcatStep(inp, base, d, m, code).0;
      assert SatcatRun(inp, base, db, names, n).0 == after;
      if after == db { GrowsBack(db, d, after); }
    }
  }

  /** A blank code that already has the bracketed operator and its alias. */
  predicate Settled(inp: Inputs, db: Db, code: string)
    requires Documented(inp, code)
  {
    var id := IdOf(db.ops, Suffixed(inp.documented[code], code));
    id.Some? && Alias(id.value, code, SATCAT) in db.aliases
  }

  lemma BlankQuietIff(inp: Inputs, base: seq<string>, db: Db, names: map<string, nat>, code: string)
    requires Blank(inp, base, code) && inp.documented[code] in db.ops
    ensures Quiet(inp, base, db, names, code) <==> Settled(inp, db, code)
  {
    var (d, target) := Insert(db, inp.documented[code], code);
    var after := Attach(d, target, code, SATCAT);
    assert SatcatStep(inp, base, db, names, code).0 == after;
    AttachFacts(inp, d, target, code, SATCAT);
    InsertFacts(db, inp.documented[code], code);
    if after == db {
      GrowsBack(db, d, after);
      assert Suffixed(inp.documented[code], code) in db.ops;
    }
  }

  lemma DealtIsQuiet(
      inp: Inputs, base: seq<string>, db: Db, m: map<string, nat>, names: map<string, nat>, code: string)
    requires Dealt(inp, base, db, m, code) && !Blank(inp, base, code) && Extends(m, names)
    ensures Quiet(inp, base, db, names, code)
    ensures OwnerOf(inp, base, names, code) == OwnerOf(inp, base, m, code)
  {
  }

  // ----- a second run -------------------------------------------------------------------

  /** The seed has been loaded: every curated operator exists. */
  ghost predicate Seeded(inp: Inputs, db: Db) {
    forall i :: 0 <= i < |inp.seed| ==> inp.seed[i].name in db.ops
  }

  /** What the first run leaves for the second. */
  lemma FirstRunFacts(inp: Inputs, db: Db)
    requires BracketsVanish(inp) && Enriched(inp, db).Success?
    ensures var (mid, existing) := AfterGcat(inp, db);
      var after := Enriched(inp, db).value;
      && Grows(db, after) && Existing(inp, after.aliases) == existing
      && Knows(inp, existing, |inp.gcatCodes|)
      && (forall i :: 0 <= i < |inp.gcatCodes| ==>
        EdgeDone(after.edges, WantedEdge(inp, existing, inp.gcatCodes[i])))
      && AllDealt(inp, db.ops, after, AllNames(inp, after), |inp.satcatCodes|)
  {
    var existing := Existing(inp, db.aliases);
    GcatRunFacts(inp, db.ops, db, existing, |inp.gcatCodes|);
    var (mid, known) := AfterGcat(inp, db);
    EdgeRunFacts(inp, known, mid.edges, |inp.gcatCodes|);
    var joined := AfterEdges(inp, db).value;
    AllNamesTrack(inp, joined);
    var names := AllNames(inp, joined);
    SatcatRunFacts(inp, db.ops, joined, names, |inp.satcatCodes|);
    var (after, m) := SatcatRun(inp, db.ops, joined, names, |inp.satcatCodes|);
    AllNamesTrack(inp, after);
    var again := AllNames(inp, after);
    assert Extends(m, again);
    forall i | 0 <= i < |inp.satcatCodes| ensures Dealt(inp, db.ops, after, again, inp.satcatCodes[i]) {
      assert Dealt(inp, db.ops, after, m, inp.satcatCodes[i]);
      if !Blank(inp, db.ops, inp.satcatCodes[i]) {
        DealtIsQuiet(inp, db.ops, after, m, again, inp.satcatCodes[i]);
      }
    }
    GrowsTrans(db, mid, joined);
    GrowsTrans(db, joined, after);
  }

  /** The seed resolves as before, so a code is blank as before and belongs to the same operator. */
  lemma SeedUnmoved(inp: Inputs, a: Db, b: Db, names: map<string, nat>, code: string)
    requires Seeded(inp, a) && Grows(a, b)
    ensures Blank(inp, b.ops, code) <==> Blank(inp, a.ops, code)
    ensures OwnerOf(inp, b.ops, names, code) == OwnerOf(inp, a.ops, names, code)
  {
    SeedStable(inp.seed, a.ops, b.ops, BySatcat, Folded(inp, code));
  }

  /** The GCAT and parent passes of a second run find everything in place, and each code keeps its
      operator. */
  lemma SecondRunGcatQuiet(inp: Inputs, db: Db)
    requires BracketsVanish(inp) && Enriched(inp, db).Success?
    ensures var after := Enriched(inp, db).value;
      && AfterGcat(inp, after) == (after, AfterGcat(inp, db).1)
      && AfterEdges(inp, after) == Success(after)
  {
    FirstRunFacts(inp, db);
    var after := Enriched(inp, db).value;
    var existing := AfterGcat(inp, db).1;
    GcatRunQuiet(inp, after.ops, after, existing, |inp.gcatCodes|);
    EdgeRunQuiet(inp, existing, after.edges, |inp.gcatCodes|);
  }

  ghost predicate BlanksSettled(inp: Inputs, base: seq<string>, db: Db) {
    forall i :: 0 <= i < |inp.satcatCodes| && Blank(inp, base, inp.satcatCodes[i]) ==>
      Settled(inp, db, inp.satcatCodes[i])
  }

  /** A run on the tables a first run left never fails, and adds no operator, alias or relationship
      exactly when every blank SATCAT name already has its bracketed operator. */
  lemma SecondRunIff(inp: Inputs, db: Db)
    requires Seeded(inp, db) && BracketsVanish(inp) && Enriched(inp, db).Success?
    ensures var after := Enriched(inp, db).value;
      && Enriched(inp, after).Success?
      && (Enriched(inp, after).value == after <==> BlanksSettled(inp, db.ops, after))
  {
    FirstRunFacts(inp, db);
    SecondRunGcatQuiet(inp, db);
    var after := Enriched(inp, db).value;
    var names := AllNames(inp, after);
    AllNamesTrack(inp, after);
    SatcatQuietIff(inp, after.ops, after, names, |inp.satcatCodes|);
    forall i | 0 <= i < |inp.satcatCodes|
      ensures Quiet(inp, after.ops, after, names, inp.satcatCodes[i]) <==>
        (Blank(inp, db.ops, inp.satcatCodes[i]) ==> Settled(inp, after, inp.satcatCodes[i]))
    {
      var code := inp.satcatCodes[i];
      assert Dealt(inp, db.ops, after, names, code);
      SeedUnmoved(inp, db, after, names, code);
      if Blank(inp, db.ops, code) {
        BlankQuietIff(inp, after.ops, after, names, code);
      } else {
        DealtIsQuiet(inp, after.ops, after, names, names, code);
      }
    }
  }

  /** With normalised names that are not empty, enrichment is idempotent. */
  lemma EnrichIsIdempotent(inp: Inputs, db: Db)
    requires Seeded(inp, db) && Enriched(inp, db).Success?
    requires forall code :: Documented(inp, code) ==> Key(inp, inp.documented[code]) != ""
    ensures Enriched(inp, Enriched(inp, db).value) == Enriched(inp, db)
  {
    SecondRunIff(inp, db);
  }

  /** In the second run every documented code belongs to the operator its alias from the first run
      names, whatever was created in between. */
  lemma CodesKeepTheirOperator(inp: Inputs, db: Db, code: string)
    requires Seeded(inp, db) && BracketsVanish(inp) && Enriched(inp, db).Success?
    requires code in inp.satcatCodes && Documented(inp, code) && !Blank(inp, db.ops, code)
    ensures var after := Enriched(inp, db).value;
      var owner := OwnerOf(inp, after.ops, AllNames(inp, after), code);
      owner.Some? && Alias(owner.value, code, SATCAT) in after.aliases
  {
    FirstRunFacts(inp, db);
    var after := Enriched(inp, db).value;
    var i :| 0 <= i < |inp.satcatCodes| && inp.satcatCodes[i] == code;
    assert Dealt(inp, db.ops, after, AllNames(inp, after), inp.satcatCodes[i]);
    SeedUnmoved(inp, db, after, AllNames(inp, after), code);
  }

  ghost predicate OneBlankCode(inp: Inputs) {
    && inp.gcatCodes == [] && inp.seed == [] && inp.satcatCodes == ["X"]
    && inp.documented == map["X" := "???"] && Key(inp, "???") == "" && BracketsVanish(inp)
  }

  lemma OneBlankFirstRun(inp: Inputs)
    requires OneBlankCode(inp)
    ensures Enriched(inp, Db([], [], {})) == Success(Db(["???"], [Alias(0, "X", SATCAT)], {}))
  {
    var empty := Db([], [], {});
    var names := AllNames(inp, empty);
    assert AfterGcat(inp, empty).0 == empty;
    assert AfterEdges(inp, empty) == Success(empty);
    OneBlankStep(inp, empty, names);
    var code := inp.satcatCodes[0];
    assert SatcatRun(inp, [], empty, names, 1) == SatcatStep(inp, [], empty, names, code) by {
      assert SatcatRun(inp, [], empty, names, 0) == (empty, names);
    }
  }

  lemma OneBlankStep(inp: Inputs, empty: Db, names: map<string, nat>)
    requires OneBlankCode(inp) && empty == Db([], [], {})
    ensures SatcatStep(inp, [], empty, names, "X").0 == Db(["???"], [Alias(0, "X", SATCAT)], {})
  {
    assert Documented(inp, "X") && Found(inp, [], names, "X").None?;
    NewNameStep(inp, [], empty, names, "X");
  }

  lemma NewNameStep(inp: Inputs, base: seq<string>, db: Db, names: map<string, nat>, code: string)
    requires Documented(inp, code) && Found(inp, base, names, code).None?
    requires inp.documented[code] !in db.ops && Alias(|db.ops|, code, SATCAT) !in db.aliases
    ensures SatcatStep(inp, base, db, names, code).0 ==
      Db(db.ops + [inp.documented[code]], db.aliases + [Alias(|db.ops|, code, SATCAT)], db.edges)
  {
    var ops := db.ops + [inp.documented[code]];
    assert ops[..|db.ops|] == db.ops;
    assert IdOf(ops, inp.documented[code]) == Some(|db.ops|);
  }

  lemma OneBlankIsBlank(inp: Inputs, empty: Db)
    requires OneBlankCode(inp) && empty == Db([], [], {})
    ensures Seeded(inp, empty) && inp.satcatCodes[0] == "X" && Blank(inp, empty.ops, "X")
    ensures Documented(inp, "X") && Suffixed(inp.documented["X"], "X") == "??? (X)"
  {
    assert SeedFor(inp.seed, empty.ops, BySatcat, Folded(inp, "X")).None?;
  }

  /** One blank name is enough to make the second run add an operator: the first creates it under its
      own name, the second finds that name taken and creates it again with the code. */
  lemma BlankNameAddsAnOperator(inp: Inputs, empty: Db)
    requires OneBlankCode(inp) && empty == Db([], [], {})
    ensures var once := Enriched(inp, empty);
      && once.Success? && once.value.ops == ["???"]
      && Enriched(inp, once.value).Success?
      && "??? (X)" in Enriched(inp, once.value).value.ops
  {
    OneBlankFirstRun(inp);
    OneBlankIsBlank(inp, empty);
    BlankEndsBracketed(inp, empty, 0);
  }

  /** After two runs every blank code is aliased to its bracketed operator. */
  lemma BlankEndsBracketed(inp: Inputs, db: Db, i: nat)
    requires Seeded(inp, db) && BracketsVanish(inp) && Enriched(inp, db).Success?
    requires i < |inp.satcatCodes| && Blank(inp, db.ops, inp.satcatCodes[i])
    ensures var twice := Enriched(inp, Enriched(inp, db).value);
      var code := inp.satcatCodes[i];
      twice.Success? && Settled(inp, twice.value, code)
  {
    FirstRunFacts(inp, db);
    SecondRunSettlesBlanks(inp, db);
    var once := Enriched(inp, db).value;
    SeedUnmoved(inp, db, once, map[], inp.satcatCodes[i]);
    assert Blank(inp, once.ops, inp.satcatCodes[i]);
  }

  // ----- two runs are enough ------------------------------------------------------------

  lemma SettledStays(inp: Inputs, a: Db, b: Db, code: string)
    requires Documented(inp, code) && Settled(inp, a, code) && Grows(a, b)
    ensures Settled(inp, b, code)
  {
    IdOfPrefix(a.ops, b.ops, Suffixed(inp.documented[code], code));
  }

  lemma StepSettles(inp: Inputs, base: seq<string>, db: Db, names: map<string, nat>, code: string)
    requires Blank(inp, base, code) && inp.documented[code] in db.ops
    ensures Settled(inp, SatcatStep(inp, base, db, names, code).0, code)
  {
    var (d, target) := Insert(db, inp.documented[code], code);
    AttachFacts(inp, d, target, code, SATCAT);
    assert IdOf(d.ops, Suffixed(inp.documented[code], code)) == Some(target);
  }

  /** Blank names that are taken from the start are settled as their codes come up. */
  lemma {:induction false} SatcatRunSettles(
      inp: Inputs, base: seq<string>, db: Db, names: map<string, nat>, n: nat)
    requires n <= |inp.satcatCodes| && NamesTrack(inp, db, names) && BracketsVanish(inp)
    requires forall i :: 0 <= i < n && Blank(inp, base, inp.satcatCodes[i]) ==>
      inp.documented[inp.satcatCodes[i]] in db.ops
    ensures forall i :: 0 <= i < n && Blank(inp, base, inp.satcatCodes[i]) ==>
      Settled(inp, SatcatRun(inp, base, db, names, n).0, inp.satcatCodes[i])
  {
    if n > 0 {
      SatcatRunSettles(inp, base, db, names, n - 1);
      SatcatRunFacts(inp, base, db, names, n - 1);
      var (d, m) := SatcatRun(inp, base, db, names, n - 1);
      var code := inp.satcatCodes[n - 1];
      SatcatStepFacts(inp, base, d, m, code);
      var after := SatcatStep(inp, base, d, m, code).0;
      assert SatcatRun(inp, base, db, names, n).0 == after;
      forall i | 0 <= i < n && Blank(inp, base, inp.satcatCodes[i])
        ensures Settled(inp, after, inp.satcatCodes[i])
      {
        if i < n - 1 {
          SettledStays(inp, d, after, inp.satcatCodes[i]);
        } else {
          StepSettles(inp, base, d, m, code);
        }
      }
    }
  }

  lemma SecondRunSettlesBlanks(inp: Inputs, db: Db)
    requires Seeded(inp, db) && BracketsVanish(inp) && Enriched(inp, db).Success?
    ensures var once := Enriched(inp, db).value;
      Enriched(inp, once).Success? && BlanksSettled(inp, once.ops, Enriched(inp, once).value)
  {
    FirstRunFacts(inp, db);
    SecondRunIff(inp, db);
    SecondRunGcatQuiet(inp, db);
    var once := Enriched(inp, db).value;
    var names := AllNames(inp, once);
    AllNamesTrack(inp, once);
    forall i | 0 <= i < |inp.satcatCodes| && Blank(inp, once.ops, inp.satcatCodes[i])
      ensures inp.documented[inp.satcatCodes[i]] in once.ops
    {
      SeedUnmoved(inp, db, once, names, inp.satcatCodes[i]);
      assert Dealt(inp, db.ops, once, names, inp.satcatCodes[i]);
    }
    SatcatRunSettles(inp, once.ops, once, names, |inp.satcatCodes|);
  }

  /** Blank names included, a third run adds nothing. */
  lemma ThirdRunAddsNothing(inp: Inputs, db: Db)
    requires Seeded(inp, db) && BracketsVanish(inp) && Enriched(inp, db).Success?
    ensures var once := Enriched(inp, db).value;
      && Enriched(inp, once).Success?
      && Enriched(inp, Enriched(inp, once).value) == Enriched(inp, once)
  {
    FirstRunFacts(inp, db);
    SecondRunSettlesBlanks(inp, db);
    SecondRunIff(inp, Enriched(inp, db).value);
  }

  // ----- identity keys ------------------------------------------------------------------

  /** canonical_name is UNIQUE, and a code's own alias names one operator. */
  ghost predicate Sound(inp: Inputs, db: Db) {
    && (forall i, j :: 0 <= i < j < |db.ops| ==> db.ops[i] != db.ops[j])
    && Unambiguous(inp, db.aliases)
  }

  predicate CodeAlias(inp: Inputs, a: Alias) { a.source == GCAT && a.text in inp.orgs }

  predicate SameCode(inp: Inputs, a: Alias, b: Alias) {
    CodeAlias(inp, a) && CodeAlias(inp, b) && a.text == b.text
  }

  ghost predicate Unambiguous(inp: Inputs, aliases: seq<Alias>) {
    forall i, j :: 0 <= i < j < |aliases| && SameCode(inp, aliases[i], aliases[j]) ==>
      aliases[i].op == aliases[j].op
  }

  lemma AttachKeepsSound(inp: Inputs, db: Db, op: nat, text: string, source: string)
    requires Sound(inp, db)
    requires source != GCAT || text !in inp.orgs || text !in Existing(inp, db.aliases)
    ensures Sound(inp, Attach(db, op, text, source))
  {
    var row := Alias(op, text, source);
    if row !in db.aliases && CodeAlias(inp, row) {
      forall i | 0 <= i < |db.aliases| && CodeAlias(inp, db.aliases[i]) ensures db.aliases[i].text != text {
        ExistingKnows(inp, db.aliases, db.aliases[i].op, db.aliases[i].text);
      }
    }
  }

  lemma AttachNamesKeepsSound(inp: Inputs, db: Db, op: nat, org: Org)
    requires Sound(inp, db)
    ensures Sound(inp, AttachNames(inp, db, op, org))
  {
    var one := AttachName(inp, db, op, org.shortName);
    var two := AttachName(inp, one, op, org.name);
    if org.shortName !in inp.orgs { AttachKeepsSound(inp, db, op, org.shortName, GCAT); }
    if org.name !in inp.orgs { AttachKeepsSound(inp, one, op, org.name, GCAT); }
    if org.eName !in inp.orgs { AttachKeepsSound(inp, two, op, org.eName, GCAT); }
  }

  lemma GcatStepKeepsSound(inp: Inputs, base: seq<string>, db: Db, existing: map<string, nat>, code: string)
    requires Sound(inp, db) && existing == Existing(inp, db.aliases)
    ensures Sound(inp, GcatStep(inp, base, db, existing, code).0)
  {
    if code in inp.orgs && code !in existing {
      var org := inp.orgs[code];
      var (placed, target) := Place(inp, base, db, code, org);
      PlaceFacts(inp, base, db, code, org);
      assert Sound(inp, placed);
      AttachKeepsSound(inp, placed, target, code, GCAT);
      AttachNamesKeepsSound(inp, Attach(placed, target, code, GCAT), target, org);
    }
  }

  /** Sound tables with their code aliases. */
  ghost predicate Tidy(inp: Inputs, db: Db, existing: map<string, nat>) {
    Sound(inp, db) && existing == Existing(inp, db.aliases)
  }

  lemma GcatStepKeepsTidy(inp: Inputs, base: seq<string>, db: Db, existing: map<string, nat>, code: string)
    requires Tidy(inp, db, existing)
    ensures var (d, e) := GcatStep(inp, base, db, existing, code);
      Tidy(inp, d, e)
  {
    GcatStepFacts(inp, base, db, existing, code);
    GcatStepKeepsSound(inp, base, db, existing, code);
  }

  lemma {:induction false} GcatRunKeepsSound(
      inp: Inputs, base: seq<string>, db: Db, existing: map<string, nat>, n: nat)
    requires n <= |inp.gcatCodes| && Tidy(inp, db, existing)
    ensures var (d, e) := GcatRun(inp, base, db, existing, n);
      Tidy(inp, d, e)
  {
    if n > 0 {
      GcatRunKeepsSound(inp, base, db, existing, n - 1);
      var (d, e) := GcatRun(inp, base, db, existing, n - 1);
      GcatStepKeepsTidy(inp, base, d, e, inp.gcatCodes[n - 1]);
    }
  }

  lemma {:induction false} SatcatRunKeepsSound(
      inp: Inputs, base: seq<string>, db: Db, names: map<string, nat>, n: nat)
    requires n <= |inp.satcatCodes| && Sound(inp, db)
    ensures Sound(inp, SatcatRun(inp, base, db, names, n).0)
  {
    if n > 0 {
      SatcatRunKeepsSound(inp, base, db, names, n - 1);
      var (d, m) := SatcatRun(inp, base, db, names, n - 1);
      SatcatStepKeepsSound(inp, base, d, m, inp.satcatCodes[n - 1]);
    }
  }

  lemma SatcatStepKeepsSound(inp: Inputs, base: seq<string>, db: Db, names: map<string, nat>, code: string)
    requires Sound(inp, db)
    ensures Sound(inp, SatcatStep(inp, base, db, names, code).0)
  {
    if Documented(inp, code) {
      var found := Found(inp, base, names, code);
      if found.Some? {
        AttachKeepsSound(inp, db, found.value, code, SATCAT);
      } else {
        var (d, target) := Insert(db, inp.documented[code], code);
        InsertFacts(db, inp.documented[code], code);
        assert Sound(inp, d);
        AttachKeepsSound(inp, d, target, code, SATCAT);
      }
    }
  }

  /** Names stay unique and a GCAT code never comes to point at two operators, even when another org is
      called by that code; and each used code points at exactly one. */
  lemma CodesStayUnambiguous(inp: Inputs, db: Db, code: string)
    requires Sound(inp, db) && BracketsVanish(inp) && Enriched(inp, db).Success?
    ensures var after := Enriched(inp, db).value;
      && Sound(inp, after)
      && (UsedOrg(inp, code) ==> exists op: nat :: Alias(op, code, GCAT) in after.aliases)
  {
    var existing := Existing(inp, db.aliases);
    GcatRunKeepsSound(inp, db.ops, db, existing, |inp.gcatCodes|);
    var mid := AfterEdges(inp, db).value;
    assert Sound(inp, mid);
    SatcatRunKeepsSound(inp, db.ops, mid, AllNames(inp, mid), |inp.satcatCodes|);
    if UsedOrg(inp, code) {
      FirstRunFacts(inp, db);
      var i :| 0 <= i < |inp.gcatCodes| && inp.gcatCodes[i] == code;
      ExistingHasRow(inp, Enriched(inp, db).value.aliases, code);
    }
  }

  lemma {:induction false} ExistingHasRow(inp: Inputs, aliases: seq<Alias>, code: string)
    requires code in Existing(inp, aliases) && code in inp.orgs
    ensures Alias(Existing(inp, aliases)[code], code, GCAT) in aliases
  {
    var last := aliases[|aliases| - 1];
    if last.source == GCAT && last.text == code {
      assert last == Alias(last.op, code, GCAT) && last in aliases;
    } else {
      ExistingHasRow(inp, aliases[..|aliases| - 1], code);
    }
  }

  lemma {:induction false} SeedPlaces(
      inp: Inputs, base: seq<string>, db: Db, existing: map<string, nat>, code: string, n: nat)
    requires n <= |inp.gcatCodes| && code in inp.orgs && code !in existing
    requires SeedTarget(inp, base, code, inp.orgs[code]).Some?
    ensures var e := GcatRun(inp, base, db, existing, n).1;
      code in e ==> e[code] == SeedTarget(inp, base, code, inp.orgs[code]).value
  {
    if n > 0 { SeedPlaces(inp, base, db, existing, code, n - 1); }
  }

  /** The seed wins: a used code seen for the first time goes to the seed's operator when the seed knows
      its code or one of its names. */
  lemma SeedWins(inp: Inputs, db: Db, code: string)
    requires UsedOrg(inp, code) && code !in Existing(inp, db.aliases)
    requires SeedTarget(inp, db.ops, code, inp.orgs[code]).Some?
    ensures var (d, existing) := AfterGcat(inp, db);
      && code in existing && existing[code] == SeedTarget(inp, db.ops, code, inp.orgs[code]).value
      && Alias(existing[code], code, GCAT) in d.aliases
  {
    var start := Existing(inp, db.aliases);
    GcatRunFacts(inp, db.ops, db, start, |inp.gcatCodes|);
    SeedPlaces(inp, db.ops, db, start, code, |inp.gcatCodes|);
    var (d, existing) := AfterGcat(inp, db);
    var i :| 0 <= i < |inp.gcatCodes| && inp.gcatCodes[i] == code;
    ExistingHasRow(inp, d.aliases, code);
  }

  // ----- what the look-ups mean ---------------------------------------------------------

  /** The seed operator exists and lists the value: by GCAT code, by SATCAT code or by name. */
  predicate SeedHas(op: SeedOp, ops: seq<string>, field: SeedField, value: string) {
    && op.name in ops
    && match field
       case ByGcat => value in op.gcat
       case BySatcat => value in op.satcat
       case ByName => value in op.names
  }

  /** Of the seed operators that exist and list a value, the first in the file is meant. */
  lemma {:induction false} SeedForIs(seed: seq<SeedOp>, ops: seq<string>, field: SeedField, value: string)
    ensures SeedFor(seed, ops, field, value).None? <==>
      forall i :: 0 <= i < |seed| ==> !SeedHas(seed[i], ops, field, value)
    ensures SeedFor(seed, ops, field, value).Some? ==>
      exists i :: 0 <= i < |seed| && SeedHas(seed[i], ops, field, value)
        && SeedFor(seed, ops, field, value) == IdOf(ops, seed[i].name)
        && (forall j :: 0 <= j < i ==> !SeedHas(seed[j], ops, field, value))
  {
    if seed != [] && !SeedHas(seed[0], ops, field, value) {
      SeedForIs(seed[1..], ops, field, value);
      assert forall i :: 0 < i < |seed| ==> seed[i] == seed[1..][i - 1];
      if SeedFor(seed[1..], ops, field, value).Some? {
        var i :| 0 <= i < |seed[1..]| && SeedHas(seed[1..][i], ops, field, value)
          && SeedFor(seed[1..], ops, field, value) == IdOf(ops, seed[1..][i].name)
          && (forall j :: 0 <= j < i ==> !SeedHas(seed[1..][j], ops, field, value));
        assert seed[i + 1] == seed[1..][i];
        forall j | 0 <= j < i + 1 ensures !SeedHas(seed[j], ops, field, value) {
          if j > 0 { assert seed[j] == seed[1..][j - 1]; }
        }
      }
    }
  }

  /** The seed is asked by code first, then by Name, EName and ShortName, and an empty key asks nothing. */
  lemma SeedTargetIs(inp: Inputs, ops: seq<string>, code: string, org: Org)
    ensures var byCode := SeedFor(inp.seed, ops, ByGcat, inp.foldCase(code));
      var texts := [org.name, org.eName, org.shortName];
      && (byCode.Some? ==> SeedTarget(inp, ops, code, org) == byCode)
      && (byCode.None? ==> forall i :: FirstKnown(inp, ops, texts, i) ==>
        SeedTarget(inp, ops, code, org) == SeedFor(inp.seed, ops, ByName, inp.norm(texts[i])))
      && (byCode.None? && (forall i :: 0 <= i < 3 ==> !KeyKnown(inp, ops, texts[i])) ==>
        SeedTarget(inp, ops, code, org) == None)
  {
    var texts := [org.name, org.eName, org.shortName];
    forall i | 0 <= i < 3 ensures KeyKnown(inp, ops, texts[i]) <==> SeedByName(inp, ops, texts[i]).Some? { }
    assert texts[0] == org.name && texts[1] == org.eName && texts[2] == org.shortName;
  }

  /** The seed has an operator under the text's key. */
  predicate KeyKnown(inp: Inputs, ops: seq<string>, text: string) {
    text != "" && inp.norm(text) != "" && SeedFor(inp.seed, ops, ByName, inp.norm(text)).Some?
  }

  predicate FirstKnown(inp: Inputs, ops: seq<string>, texts: seq<string>, i: int) {
    0 <= i < |texts| && KeyKnown(inp, ops, texts[i]) && forall j :: 0 <= j < i ==> !KeyKnown(inp, ops, texts[j])
  }

  /** What an organisation is called: its Name, unless that is not ASCII and it has an EName. */
  lemma DisplayNameIs(code: string, org: Org)
    ensures org.name != "" && (forall c :: c in org.name ==> c < 128 as char) ==>
      DisplayName(code, org) == org.name
    ensures org.name != "" && org.eName != "" && (exists c :: c in org.name && c >= 128 as char) ==>
      DisplayName(code, org) == org.eName
    ensures org.name != "" && org.eName == "" ==> DisplayName(code, org) == org.name
    ensures org.name == "" && org.eName != "" ==> DisplayName(code, org) == org.eName
    ensures org.name == "" && org.eName == "" && org.shortName != "" ==> DisplayName(code, org) == org.shortName
    ensures org.name == "" && org.eName == "" && org.shortName == "" ==> DisplayName(code, org) == code
  {
    if exists c :: c in org.name && c >= 128 as char {
      var i :| 0 <= i < |org.name| && org.name[i] >= 128 as char;
      assert !Ascii(org.name);
    } else {
      forall i | 0 <= i < |org.name| ensures org.name[i] < 128 as char { assert org.name[i] in org.name; }
    }
  }

  /** Where a SATCAT code goes without a new operator: to the seed's operator for the code, else to the one
      its documented name is known by. */
  lemma FoundIs(inp: Inputs, base: seq<string>, names: map<string, nat>, code: string)
    requires code in inp.documented && inp.documented[code] != ""
    ensures var seeded := SeedFor(inp.seed, base, BySatcat, inp.foldCase(code));
      var key := inp.norm(inp.documented[code]);
      Found(inp, base, names, code) ==
        if seeded.Some? then seeded else if key != "" && key in names then Some(names[key]) else None
  {
  }

  lemma {:induction false} OpByKeyFirst(inp: Inputs, ops: seq<string>, key: string)
    ensures OpByKey(inp, ops, key).Some? ==>
      var i := OpByKey(inp, ops, key).value;
      Key(inp, ops[i]) == key && forall j :: 0 <= j < i ==> Key(inp, ops[j]) != key
  {
    if ops != [] { OpByKeyFirst(inp, ops[..|ops| - 1], key); }
  }

  lemma {:induction false} AliasByKeyFirst(inp: Inputs, aliases: seq<Alias>, key: string)
    ensures AliasByKey(inp, aliases, key).Some? ==>
      exists i :: 0 <= i < |aliases| && AliasByKey(inp, aliases, key) == Some(aliases[i].op)
        && Key(inp, aliases[i].text) == key && forall j :: 0 <= j < i ==> Key(inp, aliases[j].text) != key
    ensures AliasByKey(inp, aliases, key).None? ==>
      forall i :: 0 <= i < |aliases| ==> Key(inp, aliases[i].text) != key
  {
    if aliases != [] {
      var n := |aliases| - 1;
      var front := aliases[..n];
      AliasByKeyFirst(inp, front, key);
      assert forall i :: 0 <= i < n ==> front[i] == aliases[i];
      if AliasByKey(inp, front, key).Some? {
        var i :| 0 <= i < n && AliasByKey(inp, front, key) == Some(front[i].op)
          && Key(inp, front[i].text) == key && forall j :: 0 <= j < i ==> Key(inp, front[j].text) != key;
        assert aliases[i] == front[i];
      }
    }
  }

  ghost predicate FirstOpAt(inp: Inputs, db: Db, key: string, i: nat) {
    i < |db.ops| && Key(inp, db.ops[i]) == key && forall j :: 0 <= j < i ==> Key(inp, db.ops[j]) != key
  }

  ghost predicate NoOpHas(inp: Inputs, db: Db, key: string) {
    forall j :: 0 <= j < |db.ops| ==> Key(inp, db.ops[j]) != key
  }

  ghost predicate FirstAliasAt(inp: Inputs, db: Db, key: string, i: nat) {
    && i < |db.aliases| && Key(inp, db.aliases[i].text) == key
    && forall j :: 0 <= j < i ==> Key(inp, db.aliases[j].text) != key
  }

  /** Who a name belongs to: the first operator so called, and only without one the first alias. */
  lemma ByKeyIs(inp: Inputs, db: Db, key: string, i: nat)
    requires key != ""
    ensures FirstOpAt(inp, db, key, i) ==> ByKey(inp, db, key) == Some(i)
    ensures NoOpHas(inp, db, key) && FirstAliasAt(inp, db, key, i) ==> ByKey(inp, db, key) == Some(db.aliases[i].op)
    ensures NoOpHas(inp, db, key) && (forall j :: 0 <= j < |db.aliases| ==> Key(inp, db.aliases[j].text) != key) ==>
      ByKey(inp, db, key) == None
  {
    OpByKeyFirst(inp, db.ops, key);
    AliasByKeyFirst(inp, db.aliases, key);
  }

  // ----- which way the edges point ------------------------------------------------------

  /** The primary key refuses an edge exactly when another source has it with the same start; an edge the
      source has already, whatever its start, is left alone. */
  lemma EdgeStepIs(edges: set<Edge>, child: nat, parent: nat, start: int)
    ensures var e := Edge(child, parent, start, "gcat_orgs");
      var has := exists f :: f in edges && f.child == child && f.parent == parent && f.source == "gcat_orgs";
      var taken := exists f :: f in edges && f.child == child && f.parent == parent && f.start == start;
      EdgeStep(edges, Some(e)) ==
        if has then Success(edges)
        else if taken then Failure(DuplicateKey(child, parent))
        else Success(edges + {e})
  {
  }

  /** A code's own alias is what the run knows it by. */
  lemma OwnAliasIsExisting(inp: Inputs, aliases: seq<Alias>, code: string, op: nat)
    requires Unambiguous(inp, aliases) && code in inp.orgs && Alias(op, code, GCAT) in aliases
    ensures code in Existing(inp, aliases) && Existing(inp, aliases)[code] == op
  {
    ExistingKnows(inp, aliases, op, code);
    ExistingHasRow(inp, aliases, code);
    var other := Alias(Existing(inp, aliases)[code], code, GCAT);
    var i :| 0 <= i < |aliases| && aliases[i] == Alias(op, code, GCAT);
    var j :| 0 <= j < |aliases| && aliases[j] == other;
    assert SameCode(inp, aliases[i], aliases[j]) && SameCode(inp, aliases[j], aliases[i]);
  }

  /** After a run every used code with a used parent under another operator has its ownership edge: the
      code's operator is the child, the parent's operator the parent. */
  lemma ChildIsTheCode(inp: Inputs, db: Db, c: string, p: string, a: nat, b: nat)
    requires Sound(inp, db) && BracketsVanish(inp) && Enriched(inp, db).Success?
    requires c in inp.gcatCodes && c in inp.orgs && p in inp.gcatCodes && p in inp.orgs
    requires inp.orgs[c].parent == p && p != "" && a != b
    requires Alias(a, c, "gcat_orgs") in Enriched(inp, db).value.aliases
    requires Alias(b, p, "gcat_orgs") in Enriched(inp, db).value.aliases
    ensures exists f :: f in Enriched(inp, db).value.edges && f.child == a && f.parent == b && f.source == "gcat_orgs"
  {
    var after := Enriched(inp, db).value;
    FirstRunFacts(inp, db);
    CodesStayUnambiguous(inp, db, c);
    OwnAliasIsExisting(inp, after.aliases, c, a);
    OwnAliasIsExisting(inp, after.aliases, p, b);
    var i :| 0 <= i < |inp.gcatCodes| && inp.gcatCodes[i] == c;
    assert EdgeDone(after.edges, WantedEdge(inp, AfterGcat(inp, db).1, inp.gcatCodes[i]));
  }

  /** Where an edge comes from: a used code and its used parent, with their operators and the code's start. */
  ghost predicate EdgeOf(inp: Inputs, aliases: seq<Alias>, e: Edge, c: string) {
    && c in inp.gcatCodes && c in inp.orgs
    && inp.orgs[c].parent in inp.gcatCodes && inp.orgs[c].parent in inp.orgs && inp.orgs[c].parent != ""
    && Alias(e.child, c, "gcat_orgs") in aliases
    && Alias(e.parent, inp.orgs[c].parent, "gcat_orgs") in aliases
    && e.child != e.parent && e.start == inp.orgs[c].start && e.source == "gcat_orgs"
  }

  lemma {:induction false} NewEdgesAreWanted(inp: Inputs, existing: map<string, nat>, edges: set<Edge>, n: nat,
                                             e: Edge)
    requires n <= |inp.gcatCodes| && EdgeRun(inp, existing, edges, n).Success?
    requires e in EdgeRun(inp, existing, edges, n).value && e !in edges
    ensures exists i :: 0 <= i < n && WantedEdge(inp, existing, inp.gcatCodes[i]) == Some(e)
  {
    if e in EdgeRun(inp, existing, edges, n - 1).value { NewEdgesAreWanted(inp, existing, edges, n - 1, e); }
  }

  /** Every edge a run adds is one of those. */
  lemma NewEdgesPointUp(inp: Inputs, db: Db, e: Edge)
    requires BracketsVanish(inp) && Enriched(inp, db).Success?
    requires e in Enriched(inp, db).value.edges && e !in db.edges
    ensures exists c :: EdgeOf(inp, Enriched(inp, db).value.aliases, e, c)
  {
    var after := Enriched(inp, db).value;
    var start := Existing(inp, db.aliases);
    FirstRunFacts(inp, db);
    GcatRunFacts(inp, db.ops, db, start, |inp.gcatCodes|);
    var (mid, existing) := AfterGcat(inp, db);
    var joined := AfterEdges(inp, db).value;
    AllNamesTrack(inp, joined);
    SatcatRunFacts(inp, db.ops, joined, AllNames(inp, joined), |inp.satcatCodes|);
    assert after.edges == joined.edges;
    NewEdgesAreWanted(inp, existing, mid.edges, |inp.gcatCodes|, e);
    var i :| 0 <= i < |inp.gcatCodes| && WantedEdge(inp, existing, inp.gcatCodes[i]) == Some(e);
    var c := inp.gcatCodes[i];
    ExistingHasRow(inp, after.aliases, c);
    ExistingHasRow(inp, after.aliases, inp.orgs[c].parent);
    assert EdgeOf(inp, after.aliases, e, c);
  }

  // ----- the tables ---------------------------------------------------------------------

  /** The three operator tables. */
  class OperatorTables {
    var db: Db

    constructor (db: Db)
      ensures this.db == db
    {
      this.db := db;
    }

    method AttachAlias(op: nat, text: string, source: string)
      modifies this
      ensures db == Attach(old(db), op, text, source)
    {
      if Alias(op, text, source) !in db.aliases {
        db := db.(aliases := db.aliases + [Alias(op, text, source)]);
      }
    }

    method InsertOperator(desired: string, code: string) returns (id: nat)
      modifies this
      ensures (db, id) == Insert(old(db), desired, code)
    {
      var name := if desired !in db.ops then desired else Suffixed(desired, code);
      if name !in db.ops { db := db.(ops := db.ops + [name]); }
      id := IdOf(db.ops, name).value;
    }

    method AttachNameVariants(inp: Inputs, op: nat, org: Org)
      modifies this
      ensures db == AttachNames(inp, old(db), op, org)
    {
      if org.shortName != "" && org.shortName !in inp.orgs { AttachAlias(op, org.shortName, GCAT); }
      if org.name != "" && org.name !in inp.orgs { AttachAlias(op, org.name, GCAT); }
      if org.eName != "" && org.eName !in inp.orgs { AttachAlias(op, org.eName, GCAT); }
    }

    /** One GCAT owner code. */
    method EnrichCode(inp: Inputs, base: seq<string>, existing: map<string, nat>, code: string)
      returns (after: map<string, nat>)
      modifies this
      ensures (db, after) == GcatStep(inp, base, old(db), existing, code)
    {
      after := existing;
      if code !in inp.orgs || code in existing { return; }
      var org := inp.orgs[code];
      var seeded := SeedTarget(inp, base, code, org);
      var target;
      if seeded.Some? {
        target := seeded.value;
      } else {
        target := InsertOperator(DisplayName(code, org), code);
      }
      AttachAlias(target, code, GCAT);
      AttachNameVariants(inp, target, org);
      after := existing[code := target];
    }

    method EnrichGcat(inp: Inputs) returns (existing: map<string, nat>)
      modifies this
      ensures (db, existing) == AfterGcat(inp, old(db))
    {
      existing := Existing(inp, db.aliases);
      ghost var known := existing;
      var base := db.ops;
      for i := 0 to |inp.gcatCodes|
        invariant (db, existing) == GcatRun(inp, base, old(db), known, i)
      {
        existing := EnrichCode(inp, base, existing, inp.gcatCodes[i]);
      }
    }

    /** `_upsert_relationship`: guarded by NOT EXISTS, so only the primary key can refuse it. */
    method UpsertRelationship(wanted: Edge) returns (r: Result<bool, Fault>)
      modifies this
      ensures EdgeStep(old(db).edges, Some(wanted)) ==
        if r.Success? then Success(db.edges) else Failure(r.error)
      ensures r.Success? ==> r.value == !HasEdge(old(db).edges, wanted)
      ensures db.ops == old(db).ops && db.aliases == old(db).aliases
    {
      if HasEdge(db.edges, wanted) { return Success(false); }
      if KeyTaken(db.edges, wanted) { return Failure(DuplicateKey(wanted.child, wanted.parent)); }
      db := db.(edges := db.edges + {wanted});
      r := Success(true);
    }

    method AddParents(inp: Inputs, existing: map<string, nat>) returns (r: Result<nat, Fault>)
      modifies this
      ensures EdgeRun(inp, existing, old(db).edges, |inp.gcatCodes|) ==
        if r.Success? then Success(db.edges) else Failure(r.error)
      ensures db.ops == old(db).ops && db.aliases == old(db).aliases
    {
      var added := 0;
      for i := 0 to |inp.gcatCodes|
        invariant EdgeRun(inp, existing, old(db).edges, i) == Success(db.edges)
        invariant db.ops == old(db).ops && db.aliases == old(db).aliases
      {
        var wanted := WantedEdge(inp, existing, inp.gcatCodes[i]);
        if wanted.Some? {
          var one := UpsertRelationship(wanted.value);
          if one.Failure? {
            EdgeFaultStays(inp, existing, old(db).edges, i + 1, |inp.gcatCodes|);
            return Failure(one.error);
          }
          if one.value { added := added + 1; }
        }
      }
      r := Success(added);
    }

    /** One SATCAT owner code. */
    method EnrichOwner(inp: Inputs, base: seq<string>, names: map<string, nat>, code: string)
      returns (after: map<string, nat>)
      modifies this
      ensures (db, after) == SatcatStep(inp, base, old(db), names, code)
    {
      after := names;
      if !Documented(inp, code) { return; }
      var found := Found(inp, base, names, code);
      if found.Some? {
        AttachAlias(found.value, code, SATCAT);
        return;
      }
      var target := InsertOperator(inp.documented[code], code);
      var key := Key(inp, inp.documented[code]);
      if key != "" { after := names[key := target]; }
      AttachAlias(target, code, SATCAT);
    }

    method EnrichSatcat(inp: Inputs, base: seq<string>)
      modifies this
      ensures db == SatcatRun(inp, base, old(db), AllNames(inp, old(db)), |inp.satcatCodes|).0
    {
      var names := AllNames(inp, db);
      ghost var start := names;
      for i := 0 to |inp.satcatCodes|
        invariant (db, names) == SatcatRun(inp, base, old(db), start, i)
      {
        names := EnrichOwner(inp, base, names, inp.satcatCodes[i]);
      }
    }

    /** `enrich`: the caller owns the transaction, so a refused row leaves the tables as they were. */
    method Run(inp: Inputs) returns (r: Result<nat, Fault>)
      modifies this
      ensures Enriched(inp, old(db)) == if r.Success? then Success(db) else Failure(r.error)
      ensures r.Failure? ==> db == old(db)
      ensures r.Success? ==> r.value + |old(db).ops| == |db.ops|
    {
      var before := db;
      var existing := EnrichGcat(inp);
      var parents := AddParents(inp, existing);
      if parents.Failure? {
        db := before;
        return Failure(parents.error);
      }
      EnrichSatcat(inp, before.ops);
      OpsGrow(inp, before);
      r := Success(|db.ops| - |before.ops|);
    }
  }

  lemma {:induction false} EdgeFaultStays(
      inp: Inputs, existing: map<string, nat>, edges: set<Edge>, n: nat, m: nat)
    requires n <= m <= |inp.gcatCodes| && EdgeRun(inp, existing, edges, n).Failure?
    ensures EdgeRun(inp, existing, edges, m) == EdgeRun(inp, existing, edges, n)
  {
    if n < m { EdgeFaultStays(inp, existing, edges, n, m - 1); }
  }

  lemma OpsGrow(inp: Inputs, db: Db)
    requires Enriched(inp, db).Success?
    ensures |db.ops| <= |Enriched(inp, db).value.ops|
  {
    GcatRunFacts(inp, db.ops, db, Existing(inp, db.aliases), |inp.gcatCodes|);
    var mid := AfterEdges(inp, db).value;
    SatcatOpsGrow(inp, db.ops, mid, AllNames(inp, mid), |inp.satcatCodes|);
  }

  lemma {:induction false} SatcatOpsGrow(
      inp: Inputs, base: seq<string>, db: Db, names: map<string, nat>, n: nat)
    requires n <= |inp.satcatCodes|
    ensures |db.ops| <= |SatcatRun(inp, base, db, names, n).0.ops|
  {
    if n > 0 { SatcatOpsGrow(inp, base, db, names, n - 1); }
  }

  // ----- what one code adds -------------------------------------------------------------

  /** The operator of a code without a seed operator: the wanted name, or with the code in brackets when an
      operator has that name already; at most that one name is new. */
  lemma InsertIs(db: Db, desired: string, code: string)
    ensures var (after, target) := Insert(db, desired, code);
      && target < |after.ops| && after.aliases == db.aliases && after.edges == db.edges
      && after.ops[target] == (if desired in db.ops then desired + " (" + code + ")" else desired)
      && after.ops == (if after.ops[target] in db.ops then db.ops else db.ops + [after.ops[target]])
  {
  }

  /** A short name, name or English name of the org, if it is not empty and no org's code. */
  predicate Variant(inp: Inputs, org: Org, text: string) {
    text != "" && text !in inp.orgs && (text == org.shortName || text == org.name || text == org.eName)
  }

  predicate GcatAlias(inp: Inputs, code: string, op: nat, a: Alias)
    requires code in inp.orgs
  {
    a.op == op && a.source == "gcat_orgs" && (a.text == code || Variant(inp, inp.orgs[code], a.text))
  }

  /** A used code met for the first time adds its own alias and the org's names, all to one operator. */
  lemma GcatStepAliases(inp: Inputs, base: seq<string>, db: Db, existing: map<string, nat>, code: string, a: Alias)
    requires code in inp.orgs && code !in existing
    ensures var (after, e) := GcatStep(inp, base, db, existing, code);
      && code in e && e == existing[code := e[code]]
      && (a in after.aliases <==> a in db.aliases || GcatAlias(inp, code, e[code], a))
  {
    var org := inp.orgs[code];
    var (placed, target) := Place(inp, base, db, code, org);
    assert placed.aliases == db.aliases;
    AttachIs(placed, target, code, GCAT, a);
    NamesAre(inp, Attach(placed, target, code, GCAT), target, org, a);
  }

  lemma AttachIs(db: Db, op: nat, text: string, source: string, a: Alias)
    ensures a in Attach(db, op, text, source).aliases <==> a in db.aliases || a == Alias(op, text, source)
  {
  }

  lemma NamesAre(inp: Inputs, db: Db, op: nat, org: Org, a: Alias)
    ensures a in AttachNames(inp, db, op, org).aliases <==>
      a in db.aliases || (a.op == op && a.source == "gcat_orgs" && Variant(inp, org, a.text))
  {
    var one := AttachName(inp, db, op, org.shortName);
    var two := AttachName(inp, one, op, org.name);
    AttachIs(db, op, org.shortName, GCAT, a);
    AttachIs(one, op, org.name, GCAT, a);
    AttachIs(two, op, org.eName, GCAT, a);
  }

  /** Where a first-seen code goes: the seed's operator, or one named as `InsertIs` says. */
  lemma GcatStepOperator(inp: Inputs, base: seq<string>, db: Db, existing: map<string, nat>, code: string)
    requires code in inp.orgs && code !in existing
    ensures var (after, e) := GcatStep(inp, base, db, existing, code);
      var (seeded, name) := (SeedTarget(inp, base, code, inp.orgs[code]), DisplayName(code, inp.orgs[code]));
      if seeded.Some? then e[code] == seeded.value && after.ops == db.ops
      else (e[code], after.ops) == (Insert(db, name, code).1, Insert(db, name, code).0.ops)
  {
    var org := inp.orgs[code];
    var (placed, target) := Place(inp, base, db, code, org);
    SameOps(inp, Attach(placed, target, code, GCAT), target, org);
  }

  lemma SameOps(inp: Inputs, db: Db, op: nat, org: Org)
    ensures AttachNames(inp, db, op, org).ops == db.ops
  {
  }

  /** A documented SATCAT code gets one alias, to the operator that is found or made, and its name is then
      known. */
  lemma SatcatStepIs(inp: Inputs, base: seq<string>, db: Db, names: map<string, nat>, code: string, a: Alias)
    requires Documented(inp, code)
    ensures var (after, n) := SatcatStep(inp, base, db, names, code);
      var (found, name) := (Found(inp, base, names, code), inp.documented[code]);
      var op := if found.Some? then found.value else Insert(db, name, code).1;
      && (a in after.aliases <==> a in db.aliases || a == Alias(op, code, "satcat_sources"))
      && after.ops == (if found.Some? then db.ops else Insert(db, name, code).0.ops)
      && n == (if found.Some? || Key(inp, name) == "" then names else names[Key(inp, name) := op])
  {
    if Found(inp, base, names, code).Some? {
      AttachIs(db, Found(inp, base, names, code).value, code, SATCAT, a);
    } else {
      var (d, target) := Insert(db, inp.documented[code], code);
      AttachIs(d, target, code, SATCAT, a);
    }
  }

  /** A code nobody documents, or one without an org or dealt with before, changes nothing. */
  lemma OtherCodesChangeNothing(inp: Inputs, base: seq<string>, db: Db, names: map<string, nat>, code: string)
    ensures !(code in inp.documented && inp.documented[code] != "") ==>
      SatcatStep(inp, base, db, names, code) == (db, names)
    ensures code !in inp.orgs || code in names ==> GcatStep(inp, base, db, names, code) == (db, names)
  {
  }
}
