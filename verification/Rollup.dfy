/** The organisation rollup: the `chain` and `rollup` queries of identity/bus.py. */
module Rollup {
  import opened Wrappers

  type Code = string

  /** A row of the latest orgs snapshot; a blank parent is None. */
  datatype Org = Org(parent: Option<Code>, orgClass: string)

  /** The snapshot and the curated parent overrides. */
  datatype Graph = Graph(orgs: map<Code, Org>, overrides: map<Code, Code>)

  const MAX_DEPTH := 10

  /** The effective parent: an override, or what the snapshot says. */
  function ParentOf(g: Graph, c: Code): Option<Code>
    requires c in g.orgs
  {
    if c in g.overrides then Some(g.overrides[c]) else g.orgs[c].parent
  }

  /** The parent the walk may go through: known and of business class. */
  function Step(g: Graph, c: Code): Option<Code>
    requires c in g.orgs
  {
    match ParentOf(g, c)
    case None => None
    case Some(p) => if p in g.orgs && g.orgs[p].orgClass == "B" then Some(p) else None
  }

  // ----- the walk -----------------------------------------------------------------------

  /** The rows of `chain`: a leaf alone, or a row extended by its business parent while the depth is
      below the cap and the parent is new on the path. */
  ghost predicate IsChain(g: Graph, path: seq<Code>) {
    && 1 <= |path| <= MAX_DEPTH + 1
    && (forall i :: 0 <= i < |path| ==> path[i] in g.orgs)
    && (forall i, j :: 0 <= i && j == i + 1 && j < |path| ==> Step(g, path[i]) == Some(path[j]))
    && (forall i, j :: 0 <= i < j < |path| ==> path[i] != path[j])
  }

  /** The recursive query run from one row until no row is added. */
  function Extend(g: Graph, path: seq<Code>): seq<Code>
    requires path != [] && path[|path| - 1] in g.orgs
    decreases MAX_DEPTH + 1 - |path|
  {
    var next := Step(g, path[|path| - 1]);
    if next.Some? && |path| - 1 < MAX_DEPTH && next.value !in path then Extend(g, path + [next.value])
    else path
  }

  /** `rollup`: the deepest row of a leaf. */
  function Path(g: Graph, leaf: Code): seq<Code>
    requires leaf in g.orgs
  {
    Extend(g, [leaf])
  }

  lemma {:induction false} ExtendIsChain(g: Graph, path: seq<Code>)
    requires IsChain(g, path)
    ensures IsChain(g, Extend(g, path))
    ensures path <= Extend(g, path)
    decreases MAX_DEPTH + 1 - |path|
  {
    var next := Step(g, path[|path| - 1]);
    if next.Some? && |path| - 1 < MAX_DEPTH && next.value !in path {
      ExtendIsChain(g, path + [next.value]);
    }
  }

  lemma {:induction false} ExtendReaches(g: Graph, path: seq<Code>, other: seq<Code>)
    requires IsChain(g, path) && IsChain(g, other) && path <= other
    ensures other <= Extend(g, path)
    decreases MAX_DEPTH + 1 - |path|
  {
    if |path| < |other| {
      var n := |path|;
      assert Step(g, other[n - 1]) == Some(other[n]) && path[n - 1] == other[n - 1];
      forall i | 0 <= i < n ensures path[i] != other[n] { assert path[i] == other[i]; }
      assert other[..n + 1] == path + [other[n]];
      assert IsChain(g, path + [other[n]]);
      ExtendReaches(g, path + [other[n]], other);
    } else {
      ExtendIsChain(g, path);
    }
  }

  /** The path is the longest row: the rows of a leaf are exactly its non-empty prefixes. In
      particular it has at most eleven codes, none twice, and all but the first of business class. */
  lemma RowsArePrefixes(g: Graph, leaf: Code, row: seq<Code>)
    requires leaf in g.orgs
    ensures IsChain(g, Path(g, leaf)) && Path(g, leaf)[0] == leaf
    ensures forall i :: 0 < i < |Path(g, leaf)| ==> g.orgs[Path(g, leaf)[i]].orgClass == "B"
    ensures |Path(g, leaf)| <= 11
    ensures (IsChain(g, row) && row[0] == leaf) <==> (row != [] && row <= Path(g, leaf))
  {
    var path := Path(g, leaf);
    ExtendIsChain(g, [leaf]);
    forall i | 0 < i < |path| ensures g.orgs[path[i]].orgClass == "B" {
      var h := i - 1;
      assert Step(g, path[h]) == Some(path[i]);
    }
    if IsChain(g, row) && row[0] == leaf { ExtendReaches(g, [leaf], row); }
  }

  function Group(g: Graph, leaf: Code): Code
    requires leaf in g.orgs
  {
    var path := Path(g, leaf);
    if path == [] then leaf else path[|path| - 1]
  }

  lemma GroupKnown(g: Graph, leaf: Code)
    requires leaf in g.orgs
    ensures Path(g, leaf) != [] && Group(g, leaf) in g.orgs
  {
    RowsArePrefixes(g, leaf, [leaf]);
  }

  /** Why a walk stops: no business parent, a parent already on the path, or the cap. */
  lemma {:induction false} ExtendStops(g: Graph, path: seq<Code>)
    requires IsChain(g, path)
    ensures var all := Extend(g, path);
      && all != [] && all[|all| - 1] in g.orgs
      && var next := Step(g, all[|all| - 1]);
        next.None? || next.value in all || |all| == MAX_DEPTH + 1
    decreases MAX_DEPTH + 1 - |path|
  {
    var next := Step(g, path[|path| - 1]);
    if next.Some? && |path| - 1 < MAX_DEPTH && next.value !in path {
      ExtendStops(g, path + [next.value]);
    }
  }

  // ----- cohorts ------------------------------------------------------------------------

  /** Dropping the leaf leaves a row of its parent. */
  lemma TailIsParentRow(g: Graph, leaf: Code)
    requires leaf in g.orgs && |Path(g, leaf)| > 1
    ensures Step(g, leaf).Some?
    ensures var p := Step(g, leaf).value;
      p in g.orgs && Path(g, leaf)[1..] <= Path(g, p) && Path(g, leaf)[1] == p
  {
    var path := Path(g, leaf);
    RowsArePrefixes(g, leaf, path);
    assert Step(g, path[0]) == Some(path[1]);
    var tail := path[1..];
    forall i, j | 0 <= i && j == i + 1 && j < |tail| ensures Step(g, tail[i]) == Some(tail[j]) {
      assert Step(g, path[i + 1]) == Some(path[j + 1]);
    }
    RowsArePrefixes(g, path[1], tail);
  }

  /** The walk of the leaf ended because there was nowhere left to go: its group has no business
      parent, or one the walk had already passed after the leaf. */
  predicate EndedAbove(g: Graph, leaf: Code)
    requires leaf in g.orgs
  {
    var path := Path(g, leaf);
    && path != [] && path[|path| - 1] in g.orgs
    && var next := Step(g, path[|path| - 1]);
      next.None? || next.value in path[1..]
  }

  /** The n-th business parent up. */
  function Climb(g: Graph, leaf: Code, n: nat): (r: Option<Code>)
    requires leaf in g.orgs
    ensures r.Some? ==> r.value in g.orgs
  {
    if n == 0 then Some(leaf)
    else
      var below := Climb(g, leaf, n - 1);
      if below.None? then None else Step(g, below.value)
  }

  ghost predicate DistinctUpTo(g: Graph, leaf: Code, m: nat)
    requires leaf in g.orgs
  {
    Climb(g, leaf, m).Some? && forall i, j :: 0 <= i < j <= m ==> Climb(g, leaf, i) != Climb(g, leaf, j)
  }

  /** Going up the parents, the first m + 1 orgs are distinct, and above the last there is none or one that
      was passed after the leaf. */
  ghost predicate RestsAt(g: Graph, leaf: Code, m: nat)
    requires leaf in g.orgs
  {
    && DistinctUpTo(g, leaf, m)
    && (Climb(g, leaf, m + 1).None? || exists j :: 1 <= j <= m && Climb(g, leaf, j) == Climb(g, leaf, m + 1))
  }

  lemma {:induction false} ClimbDefined(g: Graph, leaf: Code, i: nat, m: nat)
    requires leaf in g.orgs && i <= m && Climb(g, leaf, m).Some?
    ensures Climb(g, leaf, i).Some?
  {
    if i < m { ClimbDefined(g, leaf, i, m - 1); }
  }

  lemma {:induction false} PathIsClimb(g: Graph, leaf: Code, i: nat)
    requires leaf in g.orgs && i < |Path(g, leaf)|
    ensures Climb(g, leaf, i) == Some(Path(g, leaf)[i])
  {
    RowsArePrefixes(g, leaf, [leaf]);
    if i > 0 {
      var h := i - 1;
      PathIsClimb(g, leaf, h);
      assert Step(g, Path(g, leaf)[h]) == Some(Path(g, leaf)[i]);
    }
  }

  ghost function ClimbRow(g: Graph, leaf: Code, m: nat): seq<Code>
    requires leaf in g.orgs && DistinctUpTo(g, leaf, m)
  {
    seq(m + 1, i requires 0 <= i <= m => ClimbDefined(g, leaf, i, m); Climb(g, leaf, i).value)
  }

  lemma ClimbRowIsChain(g: Graph, leaf: Code, m: nat)
    requires leaf in g.orgs && DistinctUpTo(g, leaf, m) && m <= MAX_DEPTH
    ensures IsChain(g, ClimbRow(g, leaf, m)) && ClimbRow(g, leaf, m)[0] == leaf
  {
    var row := ClimbRow(g, leaf, m);
    forall i | 0 <= i <= m ensures Climb(g, leaf, i) == Some(row[i]) { ClimbDefined(g, leaf, i, m); }
    forall i, j | 0 <= i && j == i + 1 && j < |row| ensures Step(g, row[i]) == Some(row[j]) {
      assert Climb(g, leaf, j) == Some(row[j]);
    }
    forall i, j | 0 <= i < j < |row| ensures row[i] != row[j] {
      assert Climb(g, leaf, i) != Climb(g, leaf, j);
    }
  }

  /** How the walk ended, read off the parents alone. */
  lemma EndedAboveIff(g: Graph, leaf: Code)
    requires leaf in g.orgs
    ensures EndedAbove(g, leaf) <==> exists m: nat :: m <= MAX_DEPTH && RestsAt(g, leaf, m)
  {
    var path := Path(g, leaf);
    RowsArePrefixes(g, leaf, path);
    var n := |path| - 1;
    forall i: nat | i <= n ensures Climb(g, leaf, i) == Some(path[i]) { PathIsClimb(g, leaf, i); }
    assert DistinctUpTo(g, leaf, n);
    assert Climb(g, leaf, n + 1) == Step(g, path[n]);
    if EndedAbove(g, leaf) {
      if Step(g, path[n]).Some? {
        var j :| 0 <= j < |path[1..]| && path[1..][j] == Step(g, path[n]).value;
        assert Climb(g, leaf, j + 1) == Climb(g, leaf, n + 1);
      }
      assert RestsAt(g, leaf, n);
    }
    if exists m: nat :: m <= MAX_DEPTH && RestsAt(g, leaf, m) {
      var m: nat :| m <= MAX_DEPTH && RestsAt(g, leaf, m);
      RestsWhereThePathEnds(g, leaf, m);
    }
  }

  lemma RestsWhereThePathEnds(g: Graph, leaf: Code, m: nat)
    requires leaf in g.orgs && m <= MAX_DEPTH && RestsAt(g, leaf, m)
    ensures EndedAbove(g, leaf)
  {
    var path := Path(g, leaf);
    ClimbRowIsChain(g, leaf, m);
    RowsArePrefixes(g, leaf, ClimbRow(g, leaf, m));
    if |path| > m + 1 {
      PathIsClimb(g, leaf, m + 1);
      var j :| 1 <= j <= m && Climb(g, leaf, j) == Climb(g, leaf, m + 1);
      PathIsClimb(g, leaf, j);
      assert false;
    }
    PathIsClimb(g, leaf, m);
    assert Climb(g, leaf, m + 1) == Step(g, path[m]);
    if Step(g, path[m]).Some? {
      var j :| 1 <= j <= m && Climb(g, leaf, j) == Climb(g, leaf, m + 1);
      PathIsClimb(g, leaf, j);
      assert path[1..][j - 1] == path[j];
    }
  }

  /** An org and its business parent share a group if and only if, going up from the org, at most eleven
      distinct orgs are passed before there is none or one passed after the org comes up again: the
      walk is cut neither by the depth cap nor by coming back to the org itself. */
  lemma ParentSharesGroupIff(g: Graph, leaf: Code)
    requires leaf in g.orgs && Step(g, leaf).Some? && Step(g, leaf).value != leaf
    ensures Step(g, leaf).value in g.orgs
    ensures Group(g, leaf) == Group(g, Step(g, leaf).value) <==>
      exists m: nat :: m <= 10 && RestsAt(g, leaf, m)
  {
    EndedAboveIff(g, leaf);
    ParentSharesGroupWhen(g, leaf);
  }

  lemma ParentSharesGroupWhen(g: Graph, leaf: Code)
    requires leaf in g.orgs && Step(g, leaf).Some? && Step(g, leaf).value != leaf
    ensures Step(g, leaf).value in g.orgs
    ensures Group(g, leaf) == Group(g, Step(g, leaf).value) <==> EndedAbove(g, leaf)
  {
    var p := Step(g, leaf).value;
    assert IsChain(g, [leaf, p]);
    RowsArePrefixes(g, leaf, [leaf, p]);
    TailIsParentRow(g, leaf);
    RowsArePrefixes(g, p, [p]);
    var path, above := Path(g, leaf), Path(g, p);
    var tail := path[1..];
    var n := |tail|;
    assert tail[n - 1] == path[|path| - 1] == above[n - 1];
    if n < |above| {
      assert Step(g, above[n - 1]) == Some(above[n]);
      assert above[n] !in tail by {
        forall i | 0 <= i < n ensures tail[i] != above[n] { assert tail[i] == above[i]; }
      }
      assert above[n - 1] != above[|above| - 1];
    } else {
      assert tail == above;
      ExtendIsChain(g, [p]);
      ExtendStops(g, [p]);
    }
  }

  /** A group is its own group exactly when it has no business parent other than itself. */
  lemma GroupIsFixpointIff(g: Graph, leaf: Code)
    requires leaf in g.orgs
    ensures Group(g, leaf) in g.orgs
    ensures Group(g, Group(g, leaf)) == Group(g, leaf) <==>
      (Step(g, Group(g, leaf)).None? || Step(g, Group(g, leaf)).value == Group(g, leaf))
  {
    GroupKnown(g, leaf);
    var top := Group(g, leaf);
    RowsArePrefixes(g, top, [top]);
    var next := Step(g, top);
    if next.Some? && next.value != top {
      var row := [top, next.value];
      assert IsChain(g, row);
      RowsArePrefixes(g, top, row);
      var path := Path(g, top);
      assert path[0] != path[|path| - 1];
    }
  }

  lemma PrefixWithSameEnd(a: seq<Code>, b: seq<Code>)
    requires a != [] && a <= b && a[|a| - 1] == b[|b| - 1]
    requires forall i, j :: 0 <= i < j < |b| ==> b[i] != b[j]
    ensures a == b
  {
    assert a[|a| - 1] == b[|a| - 1];
  }

  /** A rank that rises along every parent edge: the parent map has no cycle. */
  ghost predicate Acyclic(g: Graph, rank: Code -> int) {
    forall c :: c in g.orgs && Step(g, c).Some? ==> rank(c) < rank(Step(g, c).value)
  }

  lemma {:induction false} RankRises(g: Graph, rank: Code -> int, path: seq<Code>, i: nat, j: nat)
    requires Acyclic(g, rank) && IsChain(g, path) && i <= j < |path|
    ensures rank(path[i]) <= rank(path[j])
    decreases j
  {
    if i < j {
      var h := j - 1;
      RankRises(g, rank, path, i, h);
      assert Step(g, path[h]) == Some(path[j]);
    }
  }

  /** On a parent map without cycles a walk that stays below the cap ends at the top: everyone on the
      path, the org's business parent included, has its group, and that group is its own. */
  lemma {:induction false} AcyclicWalksShareTheTop(g: Graph, rank: Code -> int, leaf: Code)
    requires Acyclic(g, rank) && leaf in g.orgs && |Path(g, leaf)| <= MAX_DEPTH
    ensures Path(g, leaf) != [] && Group(g, leaf) in g.orgs && Step(g, Group(g, leaf)).None?
    ensures Group(g, Group(g, leaf)) == Group(g, leaf)
    ensures forall c :: c in Path(g, leaf) ==> c in g.orgs && Group(g, c) == Group(g, leaf)
    decreases |Path(g, leaf)|
  {
    var path := Path(g, leaf);
    RowsArePrefixes(g, leaf, [leaf]);
    ExtendStops(g, [leaf]);
    var n := |path|;
    var next := Step(g, path[n - 1]);
    if next.Some? && next.value in path {
      var i :| 0 <= i < n && path[i] == next.value;
      RankRises(g, rank, path, i, n - 1);
      assert false;
    }
    GroupIsFixpointIff(g, leaf);
    if n > 1 {
      TailIsParentRow(g, leaf);
      var p := path[1];
      assert Step(g, leaf) == Some(p) && p != leaf;
      ParentSharesGroupWhen(g, leaf);
      RowsArePrefixes(g, p, [p]);
      var above := Path(g, p);
      PrefixWithSameEnd(path[1..], above);
      AcyclicWalksShareTheTop(g, rank, p);
      forall c | c in path ensures c in g.orgs && Group(g, c) == Group(g, leaf) {
        assert c == leaf || c in path[1..];
      }
    }
  }

  /** Two business orgs that name each other as parent: neither walk fails, but each ends at the
      other, so parent and child are put in different cohorts. */
  lemma CycleSplitsCohort()
    ensures var g := Graph(map["A" := Org(Some("B"), "B"), "B" := Org(Some("A"), "B")], map[]);
      && Path(g, "A") == ["A", "B"] && Path(g, "B") == ["B", "A"]
      && Step(g, "A") == Some("B") && Group(g, "A") != Group(g, "B")
  {
  }

  /** The walk goes from c to p exactly when p is known and of class B and is what the overrides give c or,
      without an override, what the snapshot does. */
  lemma StepIff(g: Graph, c: Code, p: Code)
    requires c in g.orgs
    ensures Step(g, c) == Some(p) <==>
      && p in g.orgs && g.orgs[p].orgClass == "B"
      && (if c in g.overrides then g.overrides[c] == p else g.orgs[c].parent == Some(p))
  {
  }

  /** A code with an override to a known business org walks to it, whatever the snapshot says. */
  lemma OverrideDecides(g: Graph, c: Code)
    requires c in g.orgs && c in g.overrides && g.overrides[c] in g.orgs && g.overrides[c] != c
    requires g.orgs[g.overrides[c]].orgClass == "B"
    ensures |Path(g, c)| > 1 && Path(g, c)[1] == g.overrides[c]
  {
    StepIff(g, c, g.overrides[c]);
    assert IsChain(g, [c, g.overrides[c]]);
    RowsArePrefixes(g, c, [c, g.overrides[c]]);
  }
}
