/** The curated alias table: `CuratedAliases` and `load_curated_aliases` in identity/bus.py. */
module Aliases {
  import opened Wrappers

  /** A display name, with the country when the file gives one. */
  datatype Label = Label(name: string, country: Option<string>)

  /** One entry of the `manufacturers` or `buses` list: its target, the aliases, and its label
      (for a bus only the name matters). */
  datatype Entry = Entry(target: string, sources: seq<string>, display: Option<Label>)

  datatype Doc = Doc(manufacturers: seq<Entry>, displayNames: seq<(string, Label)>, buses: seq<Entry>)

  datatype Table = Table(targets: map<string, string>, labels: map<string, Label>)

  datatype Curated = Curated(codes: Table, buses: Table)

  datatype Fault =
    | AliasedToItself(source: string)
    | AliasedTwice(source: string)
    | TwoNames(target: string)
    | Chained

  // ----- one list -----------------------------------------------------------------------

  function AddSource(m: map<string, string>, source: string, target: string):
    Result<map<string, string>, Fault>
  {
    if source == target then Failure(AliasedToItself(source))
    else if source in m then Failure(AliasedTwice(source))
    else Success(m[source := target])
  }

  function AddSources(m: map<string, string>, sources: seq<string>, target: string):
    Result<map<string, string>, Fault>
  {
    if sources == [] then Success(m)
    else
      var front := AddSources(m, sources[..|sources| - 1], target);
      if front.Failure? then front else AddSource(front.value, sources[|sources| - 1], target)
  }

  /** A second name for one target is a fault among buses; a later one wins among manufacturers. */
  function AddLabel(labels: map<string, Label>, e: Entry, once: bool): Result<map<string, Label>, Fault>
  {
    if e.display.None? then Success(labels)
    else if once && e.target in labels && labels[e.target].name != e.display.value.name then
      Failure(TwoNames(e.target))
    else Success(labels[e.target := e.display.value])
  }

  function AddEntry(t: Table, e: Entry, once: bool): Result<Table, Fault> {
    var targets := AddSources(t.targets, e.sources, e.target);
    if targets.Failure? then Failure(targets.error)
    else
      var labels := AddLabel(t.labels, e, once);
      if labels.Failure? then Failure(labels.error) else Success(Table(targets.value, labels.value))
  }

  /** The list read in order up to the first fault. */
  function Fold(entries: seq<Entry>, once: bool): Result<Table, Fault> {
    if entries == [] then Success(Table(map[], map[]))
    else
      var front := Fold(entries[..|entries| - 1], once);
      if front.Failure? then front else AddEntry(front.value, entries[|entries| - 1], once)
  }

  method LoadSources(m: map<string, string>, sources: seq<string>, target: string)
    returns (r: Result<map<string, string>, Fault>)
    ensures r == AddSources(m, sources, target)
  {
    var acc := m;
    for i := 0 to |sources|
      invariant AddSources(m, sources[..i], target) == Success(acc)
    {
      assert sources[..i + 1][..i] == sources[..i];
      if sources[i] == target {
        FaultStays(m, sources, i + 1, target);
        return Failure(AliasedToItself(target));
      }
      if sources[i] in acc {
        FaultStays(m, sources, i + 1, target);
        return Failure(AliasedTwice(sources[i]));
      }
      acc := acc[sources[i] := target];
    }
    assert sources[..|sources|] == sources;
    r := Success(acc);
  }

  lemma {:induction false} FaultStays(m: map<string, string>, sources: seq<string>, n: nat, target: string)
    requires n <= |sources| && AddSources(m, sources[..n], target).Failure?
    ensures AddSources(m, sources, target) == AddSources(m, sources[..n], target)
  {
    if n < |sources| {
      assert sources[..|sources| - 1][..n] == sources[..n];
      FaultStays(m, sources[..|sources| - 1], n, target);
    } else {
      assert sources[..n] == sources;
    }
  }

  lemma {:induction false} FoldFaultStays(entries: seq<Entry>, n: nat, once: bool)
    requires n <= |entries| && Fold(entries[..n], once).Failure?
    ensures Fold(entries, once) == Fold(entries[..n], once)
  {
    if n < |entries| {
      assert entries[..|entries| - 1][..n] == entries[..n];
      FoldFaultStays(entries[..|entries| - 1], n, once);
    } else {
      assert entries[..n] == entries;
    }
  }

  method LoadList(entries: seq<Entry>, once: bool) returns (r: Result<Table, Fault>)
    ensures r == Fold(entries, once)
  {
    var table := Table(map[], map[]);
    for i := 0 to |entries|
      invariant Fold(entries[..i], once) == Success(table)
    {
      assert entries[..i + 1][..i] == entries[..i];
      var e := entries[i];
      var targets := LoadSources(table.targets, e.sources, e.target);
      if targets.Failure? {
        FoldFaultStays(entries, i + 1, once);
        return Failure(targets.error);
      }
      var labels := AddLabel(table.labels, e, once);
      if labels.Failure? {
        FoldFaultStays(entries, i + 1, once);
        return Failure(labels.error);
      }
      table := Table(targets.value, labels.value);
    }
    assert entries[..|entries|] == entries;
    r := Success(table);
  }

  // ----- the file -----------------------------------------------------------------------

  /** A target that is itself an alias. */
  predicate HasChain(m: map<string, string>) { exists s :: s in m && m[s] in m }

  /** Display-only entries never overrule a label already there. */
  function WithDisplay(labels: map<string, Label>, shown: seq<(string, Label)>): map<string, Label> {
    if shown == [] then labels
    else
      var front := WithDisplay(labels, shown[..|shown| - 1]);
      var (code, shownAs) := shown[|shown| - 1];
      if code in front then front else front[code := shownAs]
  }

  function Loaded(doc: Doc): Result<Curated, Fault> {
    var codes := Fold(doc.manufacturers, false);
    if codes.Failure? then Failure(codes.error)
    else
      var buses := Fold(doc.buses, true);
      if buses.Failure? then Failure(buses.error)
      else if HasChain(codes.value.targets) || HasChain(buses.value.targets) then Failure(Chained)
      else Success(Curated(codes.value.(labels := WithDisplay(codes.value.labels, doc.displayNames)),
                           buses.value))
  }

  method LoadCuratedAliases(doc: Doc) returns (r: Result<Curated, Fault>)
    ensures r == Loaded(doc)
  {
    var codes := LoadList(doc.manufacturers, false);
    if codes.Failure? { return Failure(codes.error); }
    var labels := codes.value.labels;
    for i := 0 to |doc.displayNames|
      invariant labels == WithDisplay(codes.value.labels, doc.displayNames[..i])
    {
      assert doc.displayNames[..i + 1][..i] == doc.displayNames[..i];
      var (code, shownAs) := doc.displayNames[i];
      if code !in labels { labels := labels[code := shownAs]; }
    }
    assert doc.displayNames[..|doc.displayNames|] == doc.displayNames;
    var buses := LoadList(doc.buses, true);
    if buses.Failure? { return Failure(buses.error); }
    if HasChain(codes.value.targets) || HasChain(buses.value.targets) { return Failure(Chained); }
    r := Success(Curated(codes.value.(labels := labels), buses.value));
  }

  // ----- what loading guarantees --------------------------------------------------------

  /** The lookups `group_code` and `bus_slug`: the target, or the code unchanged. */
  function Resolve(m: map<string, string>, c: string): string { if c in m then m[c] else c }

  /** Entry e lists s. */
  predicate Lists(e: Entry, s: string) { s in e.sources }

  ghost predicate Listed(entries: seq<Entry>, s: string) {
    exists i :: 0 <= i < |entries| && Lists(entries[i], s)
  }

  /** No alias of the entry is its own target or is repeated. */
  ghost predicate CleanEntry(e: Entry) {
    && (forall j :: 0 <= j < |e.sources| ==> e.sources[j] != e.target)
    && (forall j, k :: 0 <= j < k < |e.sources| ==> e.sources[j] != e.sources[k])
  }

  ghost predicate SourcesOnce(entries: seq<Entry>) {
    && (forall i :: 0 <= i < |entries| ==> CleanEntry(entries[i]))
    && (forall i, j, s :: 0 <= i < j < |entries| && Lists(entries[i], s) ==> !Lists(entries[j], s))
  }

  /** Both name the same target, differently. */
  predicate NamesClash(e: Entry, f: Entry) {
    && e.target == f.target && e.display.Some? && f.display.Some?
    && e.display.value.name != f.display.value.name
  }

  ghost predicate OneNameEach(entries: seq<Entry>) {
    forall i, j :: 0 <= i < j < |entries| ==> !NamesClash(entries[i], entries[j])
  }

  ghost predicate Fresh(m: map<string, string>, sources: seq<string>, target: string) {
    && (forall j :: 0 <= j < |sources| ==> sources[j] != target && sources[j] !in m)
    && (forall j, k :: 0 <= j < k < |sources| ==> sources[j] != sources[k])
  }

  lemma {:induction false} AddSourcesIff(m: map<string, string>, sources: seq<string>, target: string)
    ensures AddSources(m, sources, target).Success? <==> Fresh(m, sources, target)
    ensures AddSources(m, sources, target).Success? ==>
      var t := AddSources(m, sources, target).value;
      && (forall s :: s in t <==> s in m || s in sources)
      && (forall s :: s in t ==> t[s] == if s in m then m[s] else target)
  {
    if sources != [] {
      var front, last := sources[..|sources| - 1], sources[|sources| - 1];
      AddSourcesIff(m, front, target);
      assert sources == front + [last];
      if AddSources(m, front, target).Success? {
        var t := AddSources(m, front, target).value;
        assert last in t <==> last in m || last in front;
        FreshStep(m, front, last, target);
      } else {
        assert !Fresh(m, front, target);
        FreshStep(m, front, last, target);
      }
    }
  }

  lemma FreshStep(m: map<string, string>, front: seq<string>, last: string, target: string)
    ensures Fresh(m, front + [last], target) <==>
      Fresh(m, front, target) && last != target && last !in m && last !in front
  {
    var all := front + [last];
    if Fresh(m, all, target) {
      assert all[|front|] == last;
      forall j | 0 <= j < |front| ensures front[j] != target && front[j] !in m && front[j] != last {
        assert all[j] == front[j];
      }
      forall j, k | 0 <= j < k < |front| ensures front[j] != front[k] {
        assert all[j] == front[j] && all[k] == front[k];
      }
    }
  }

  predicate Maps(m: map<string, string>, s: string, g: string) { s in m && m[s] == g }

  predicate Labelled(m: map<string, Label>, g: string, l: Label) { g in m && m[g] == l }

  /** What the entries say, as a relation. */
  ghost predicate Says(entries: seq<Entry>, source: string, target: string) {
    exists i :: 0 <= i < |entries| && Lists(entries[i], source) && entries[i].target == target
  }

  predicate LabelsTarget(e: Entry, target: string) { e.target == target && e.display.Some? }

  /** The last entry that labels the target gives this label. */
  ghost predicate LastLabel(entries: seq<Entry>, target: string, l: Label) {
    exists i :: 0 <= i < |entries| && LabelsTarget(entries[i], target) && entries[i].display.value == l &&
      forall j :: i < j < |entries| ==> !LabelsTarget(entries[j], target)
  }

  lemma StepSources(entries: seq<Entry>)
    requires entries != []
    ensures var (front, last) := (entries[..|entries| - 1], entries[|entries| - 1]);
      && (SourcesOnce(entries) <==>
        SourcesOnce(front) && CleanEntry(last) && forall s :: Lists(last, s) ==> !Listed(front, s))
      && (forall s, g :: Says(entries, s, g) <==>
        Says(front, s, g) || (Lists(last, s) && last.target == g))
  {
    var n := |entries| - 1;
    var front := entries[..n];
    assert forall i :: 0 <= i < n ==> front[i] == entries[i];
    if SourcesOnce(entries) {
      forall i, s | 0 <= i < n && Lists(front[i], s) ensures !Lists(entries[n], s) {
        assert Lists(entries[i], s);
      }
    }
    forall s, g | Says(front, s, g) ensures Says(entries, s, g) {
      var i :| 0 <= i < n && Lists(front[i], s) && front[i].target == g;
      assert Lists(entries[i], s);
    }
  }

  lemma StepLabels(entries: seq<Entry>)
    requires entries != []
    ensures var (front, last) := (entries[..|entries| - 1], entries[|entries| - 1]);
      && (OneNameEach(entries) <==>
        OneNameEach(front) && forall i :: 0 <= i < |front| ==> !NamesClash(front[i], last))
      && (forall g, l :: LastLabel(entries, g, l) <==>
        if LabelsTarget(last, g) then last.display.value == l else LastLabel(front, g, l))
  {
    var n := |entries| - 1;
    var front, last := entries[..n], entries[n];
    assert forall i :: 0 <= i < n ==> front[i] == entries[i];
    forall g, l ensures LastLabel(entries, g, l) <==>
      if LabelsTarget(last, g) then last.display.value == l else LastLabel(front, g, l)
    {
      if !LabelsTarget(last, g) && LastLabel(front, g, l) {
        var i :| 0 <= i < n && LabelsTarget(front[i], g) && front[i].display.value == l &&
          forall j :: i < j < n ==> !LabelsTarget(front[j], g);
        assert LabelsTarget(entries[i], g);
      }
      if LabelsTarget(last, g) { assert LabelsTarget(entries[n], g); }
    }
  }

  /** Among buses named consistently so far, the label in the table clashes with a new entry exactly
      when some earlier entry does. */
  lemma ClashShows(front: seq<Entry>, last: Entry, labels: map<string, Label>)
    requires forall g, l :: Labelled(labels, g, l) <==> LastLabel(front, g, l)
    requires OneNameEach(front) && last.display.Some?
    ensures (last.target in labels && labels[last.target].name != last.display.value.name) <==>
      exists i :: 0 <= i < |front| && NamesClash(front[i], last)
  {
    var g := last.target;
    if g in labels {
      assert LastLabel(front, g, labels[g]);
      var i :| 0 <= i < |front| && LabelsTarget(front[i], g) && front[i].display.value == labels[g] &&
        forall j :: i < j < |front| ==> !LabelsTarget(front[j], g);
      assert NamesClash(front[i], last) <==> labels[g].name != last.display.value.name;
      forall k | 0 <= k < |front| && NamesClash(front[k], last) ensures NamesClash(front[i], last) {
        assert LabelsTarget(front[k], g);
        assert k != i ==> !NamesClash(front[k], front[i]);
      }
    } else {
      forall i | 0 <= i < |front| ensures !NamesClash(front[i], last) {
        NeverLabelled(front, g, labels, i);
      }
    }
  }

  lemma NeverLabelled(front: seq<Entry>, g: string, labels: map<string, Label>, i: nat)
    requires forall h, l :: Labelled(labels, h, l) <==> LastLabel(front, h, l)
    requires g !in labels && i < |front|
    ensures !LabelsTarget(front[i], g)
    decreases |front| - i
  {
    forall j | i < j < |front| ensures !LabelsTarget(front[j], g) {
      NeverLabelled(front, g, labels, j);
    }
    if LabelsTarget(front[i], g) { assert LastLabel(front, g, front[i].display.value); }
  }

  /** A list is accepted exactly when no alias targets itself, none is listed twice anywhere, and (for
      buses) no target has two names; the table then holds exactly what the entries say. */
  lemma {:induction false} FoldIff(entries: seq<Entry>, once: bool)
    ensures Fold(entries, once).Success? <==>
      SourcesOnce(entries) && (once ==> OneNameEach(entries))
    ensures Fold(entries, once).Success? ==>
      var t := Fold(entries, once).value;
      && (forall s, g :: Maps(t.targets, s, g) <==> Says(entries, s, g))
      && (forall g, l :: Labelled(t.labels, g, l) <==> LastLabel(entries, g, l))
  {
    if entries != [] {
      var front, last := entries[..|entries| - 1], entries[|entries| - 1];
      FoldIff(front, once);
      StepSources(entries);
      StepLabels(entries);
      if Fold(front, once).Success? {
        FoldStep(front, last, Fold(front, once).value, once);
      }
    }
  }

  lemma FoldStep(front: seq<Entry>, last: Entry, t: Table, once: bool)
    requires forall s, g :: Maps(t.targets, s, g) <==> Says(front, s, g)
    requires forall g, l :: Labelled(t.labels, g, l) <==> LastLabel(front, g, l)
    requires once ==> OneNameEach(front)
    ensures AddEntry(t, last, once).Success? <==>
      && CleanEntry(last)
      && (forall s :: Lists(last, s) ==> !Listed(front, s))
      && (once ==> forall i :: 0 <= i < |front| ==> !NamesClash(front[i], last))
    ensures AddEntry(t, last, once).Success? ==>
      var u := AddEntry(t, last, once).value;
      && (forall s, g :: Maps(u.targets, s, g) <==>
        Says(front, s, g) || (Lists(last, s) && last.target == g))
      && (forall g, l :: Labelled(u.labels, g, l) <==>
        if LabelsTarget(last, g) then last.display.value == l else LastLabel(front, g, l))
  {
    AddSourcesIff(t.targets, last.sources, last.target);
    forall s ensures s in t.targets <==> Listed(front, s) {
      if s in t.targets { assert Says(front, s, t.targets[s]); }
      if Listed(front, s) {
        var i :| 0 <= i < |front| && Lists(front[i], s);
        assert Says(front, s, front[i].target);
      }
    }
    assert (forall j :: 0 <= j < |last.sources| ==> last.sources[j] !in t.targets) <==>
      (forall s :: Lists(last, s) ==> !Listed(front, s));
    if once && last.display.Some? { ClashShows(front, last, t.labels); }
    if AddEntry(t, last, once).Success? {
      var u := AddEntry(t, last, once).value;
      forall g, l ensures Labelled(u.labels, g, l) <==>
        if LabelsTarget(last, g) then last.display.value == l else LastLabel(front, g, l)
      {
      }
    }
  }

  /** The loaded tables map in one hop: resolving twice is resolving once, and no alias survives. */
  lemma AliasingIsIdempotentIff(entries: seq<Entry>, once: bool)
    requires Fold(entries, once).Success?
    ensures var m := Fold(entries, once).value.targets;
      !HasChain(m) <==> forall c :: Resolve(m, Resolve(m, c)) == Resolve(m, c)
  {
    FoldIff(entries, once);
    var m := Fold(entries, once).value.targets;
    if HasChain(m) {
      var s :| s in m && m[s] in m;
      var t := m[s];
      assert Says(entries, t, m[t]);
      assert m[t] != t;
      assert Resolve(m, Resolve(m, s)) != Resolve(m, s);
    }
  }

  /** A file loads exactly when both lists are clean, no bus has two names, and both lookups are
      idempotent: a chain of aliases is the only reason left to refuse it. */
  lemma LoadsIff(doc: Doc)
    ensures Loaded(doc).Success? <==>
      && SourcesOnce(doc.manufacturers) && SourcesOnce(doc.buses) && OneNameEach(doc.buses)
      && Unchained(doc.manufacturers) && Unchained(doc.buses)
    ensures Loaded(doc).Success? ==>
      && (forall c :: var m := Loaded(doc).value.codes.targets; Resolve(m, Resolve(m, c)) == Resolve(m, c))
      && (forall c :: var m := Loaded(doc).value.buses.targets; Resolve(m, Resolve(m, c)) == Resolve(m, c))
  {
    FoldIff(doc.manufacturers, false);
    FoldIff(doc.buses, true);
    if Fold(doc.manufacturers, false).Success? {
      AliasingIsIdempotentIff(doc.manufacturers, false);
      UnchainedIff(doc.manufacturers, false);
    }
    if Fold(doc.buses, true).Success? {
      AliasingIsIdempotentIff(doc.buses, true);
      UnchainedIff(doc.buses, true);
    }
  }

  /** No target is itself an alias. */
  ghost predicate Unchained(entries: seq<Entry>) {
    forall i :: 0 <= i < |entries| && entries[i].sources != [] ==> !Listed(entries, entries[i].target)
  }

  lemma UnchainedIff(entries: seq<Entry>, once: bool)
    requires Fold(entries, once).Success?
    ensures Unchained(entries) <==> !HasChain(Fold(entries, once).value.targets)
  {
    FoldIff(entries, once);
    var m := Fold(entries, once).value.targets;
    if HasChain(m) {
      var s :| s in m && m[s] in m;
      assert Says(entries, s, m[s]) && Says(entries, m[s], m[m[s]]);
      var i :| 0 <= i < |entries| && Lists(entries[i], s) && entries[i].target == m[s];
      assert Listed(entries, entries[i].target);
    }
    if !Unchained(entries) {
      var i :| 0 <= i < |entries| && entries[i].sources != [] && Listed(entries, entries[i].target);
      var s, t := entries[i].sources[0], entries[i].target;
      var j :| 0 <= j < |entries| && Lists(entries[j], t);
      assert Lists(entries[i], s) && Says(entries, s, t) && Says(entries, t, entries[j].target);
    }
  }

  function LookUp(m: map<string, Label>, c: string): Option<Label> { if c in m then Some(m[c]) else None }

  /** The first display-only entry for a code. */
  function FirstShown(shown: seq<(string, Label)>, c: string): Option<Label> {
    if shown == [] then None
    else if shown[0].0 == c then Some(shown[0].1)
    else FirstShown(shown[1..], c)
  }

  lemma {:induction false} FirstShownStep(shown: seq<(string, Label)>, c: string)
    requires shown != []
    ensures var (front, last) := (shown[..|shown| - 1], shown[|shown| - 1]);
      FirstShown(shown, c) ==
        if FirstShown(front, c).Some? || last.0 != c then FirstShown(front, c) else Some(last.1)
  {
    if |shown| > 1 {
      FirstShownStep(shown[1..], c);
      assert shown[1..][..|shown| - 2] == shown[..|shown| - 1][1..];
    }
  }

  /** A display-only entry labels a code only where a group entry has not, and the first one wins. */
  lemma {:induction false} DisplayNeverOverrules(
      labels: map<string, Label>, shown: seq<(string, Label)>, c: string)
    ensures LookUp(WithDisplay(labels, shown), c) ==
      if c in labels then Some(labels[c]) else FirstShown(shown, c)
  {
    if shown != [] {
      DisplayNeverOverrules(labels, shown[..|shown| - 1], c);
      FirstShownStep(shown, c);
    }
  }
}
