/** Route matching and canonical paths: api/seo.py. Paths arrive decoded, so percent-encoding is not
    part of this model; every route matches to the end of the path. `fold` sends a character to the
    representative of its case class. */
module Routes {
  import opened Wrappers

  /** One segment of a compiled pattern. */
  datatype Part = Static(text: string) | Param(name: string) | Optional(name: string)

  /** A row of the route table: its pattern and the query keys it canonicalises on. */
  datatype Route = Route(pattern: string, keys: seq<string>)

  /** The winning route, by position, and its params. */
  datatype Hit = Hit(route: nat, params: map<string, string>)

  // ----- cutting a path at its slashes --------------------------------------------------

  function Split(s: string): (pieces: seq<string>)
    ensures pieces != []
  {
    if s == "" then [""]
    else
      var rest := Split(s[1..]);
      if s[0] == '/' then [""] + rest else [[s[0]] + rest[0]] + rest[1..]
  }

  function Join(pieces: seq<string>): string {
    if pieces == [] then ""
    else if |pieces| == 1 then pieces[0]
    else pieces[0] + "/" + Join(pieces[1..])
  }

  predicate SlashFree(pieces: seq<string>) { forall i :: 0 <= i < |pieces| ==> '/' !in pieces[i] }

  lemma {:induction false} SplitSlashFree(s: string)
    ensures SlashFree(Split(s))
  {
    if s != "" { SplitSlashFree(s[1..]); }
  }

  lemma {:induction false} SplitPrefix(head: string, tail: string)
    requires '/' !in head
    ensures Split(head) == [head]
    ensures Split(head + "/" + tail) == [head] + Split(tail)
  {
    var text := head + "/" + tail;
    if head == "" {
      assert text[1..] == tail;
    } else {
      SplitPrefix(head[1..], tail);
      assert text[1..] == head[1..] + "/" + tail;
      assert [head[0]] + head[1..] == head;
    }
  }

  /** Cutting undoes joining. */
  lemma {:induction false} SplitJoin(pieces: seq<string>)
    requires pieces != [] && SlashFree(pieces)
    ensures Split(Join(pieces)) == pieces
  {
    if |pieces| == 1 {
      SplitPrefix(pieces[0], "");
    } else {
      SplitJoin(pieces[1..]);
      SplitPrefix(pieces[0], Join(pieces[1..]));
    }
  }

  /** A path that does not start with a slash is given one, so either way this is what follows it. */
  function Pieces(path: string): seq<string> {
    if path != "" && path[0] == '/' then Split(path[1..]) else Split(path)
  }

  /** The pieces without the one a trailing slash leaves. */
  function Body(pieces: seq<string>): seq<string> {
    if pieces != [] && pieces[|pieces| - 1] == "" then pieces[..|pieces| - 1] else pieces
  }

  // ----- patterns -----------------------------------------------------------------------

  function Strip(s: string): string {
    if s == "" then s
    else if s[0] == '/' then Strip(s[1..])
    else if s[|s| - 1] == '/' then Strip(s[..|s| - 1])
    else s
  }

  predicate WordChar(c: char) { 'a' <= c <= 'z' || 'A' <= c <= 'Z' || '0' <= c <= '9' || c == '_' }

  predicate IsWord(s: string) { s != "" && forall i :: 0 <= i < |s| ==> WordChar(s[i]) }

  /** `:name` is a parameter, `:name?` an optional one, anything else is literal. */
  function PartOf(seg: string): Part {
    if seg != "" && seg[0] == ':' && IsWord(seg[1..]) then Param(seg[1..])
    else if |seg| > 1 && seg[0] == ':' && seg[|seg| - 1] == '?' && IsWord(seg[1..|seg| - 1]) then
      Optional(seg[1..|seg| - 1])
    else Static(seg)
  }

  /** The compiled form of the segments read so far; empty ones are skipped. */
  function PartsOf(segs: seq<string>): seq<Part> {
    if segs == [] then []
    else
      var last := segs[|segs| - 1];
      PartsOf(segs[..|segs| - 1]) + (if last == "" then [] else [PartOf(last)])
  }

  function Segments(pattern: string): seq<string> { Split(Strip(pattern)) }

  function Parts(pattern: string): seq<Part> { PartsOf(Segments(pattern)) }

  predicate Named(p: Part) { p.Param? || p.Optional? }

  predicate NameIn(name: string, parts: seq<Part>) {
    exists i :: 0 <= i < |parts| && Named(parts[i]) && parts[i].name == name
  }

  predicate NamesDistinct(parts: seq<Part>) {
    forall i, j :: 0 <= i < j < |parts| && Named(parts[i]) && Named(parts[j]) ==>
      parts[i].name != parts[j].name
  }

  /** The regular expression is refused when two groups share a name or a name starts with a digit. */
  predicate Compiles(parts: seq<Part>) {
    && NamesDistinct(parts)
    && forall i :: 0 <= i < |parts| && Named(parts[i]) && parts[i].name != "" ==>
      !('0' <= parts[i].name[0] <= '9')
  }

  /** Literal segments are not empty and hold no slash. */
  predicate Literal(parts: seq<Part>) {
    forall i :: 0 <= i < |parts| && parts[i].Static? ==> parts[i].text != "" && '/' !in parts[i].text
  }

  lemma {:induction false} PartsOfLiteral(segs: seq<string>)
    requires SlashFree(segs)
    ensures Literal(PartsOf(segs))
  {
    if segs != [] { PartsOfLiteral(segs[..|segs| - 1]); }
  }

  lemma PatternLiteral(pattern: string)
    ensures Literal(Parts(pattern))
  {
    SplitSlashFree(Strip(pattern));
    PartsOfLiteral(Segments(pattern));
  }

  /** `_compile`: the loop over the segments. */
  method Compile(pattern: string) returns (r: Result<seq<Part>, string>)
    ensures r == if Compiles(Parts(pattern)) then Success(Parts(pattern)) else Failure(pattern)
  {
    var segs := Segments(pattern);
    var parts := [];
    for i := 0 to |segs|
      invariant parts == PartsOf(segs[..i])
    {
      assert segs[..i + 1][..i] == segs[..i];
      if segs[i] != "" { parts := parts + [PartOf(segs[i])]; }
    }
    assert segs[..|segs|] == segs;
    r := if Compiles(parts) then Success(parts) else Failure(pattern);
  }

  // ----- matching one route -------------------------------------------------------------

  predicate Same(a: string, b: string, fold: char -> char) {
    |a| == |b| && forall i :: 0 <= i < |a| ==> fold(a[i]) == fold(b[i])
  }

  function With(name: string, value: string, rest: Option<map<string, string>>):
    Option<map<string, string>>
  {
    match rest
    case None => None
    case Some(params) => Some(params[name := value])
  }

  /** The compiled expression run by backtracking: an optional segment is first taken, then skipped. */
  function MatchParts(parts: seq<Part>, pieces: seq<string>, fold: char -> char):
    Option<map<string, string>>
    decreases |parts|, 0
  {
    if parts == [] then if Body(pieces) == [] then Some(map[]) else None
    else match parts[0]
      case Static(text) =>
        if pieces != [] && Same(text, pieces[0], fold) then MatchParts(parts[1..], pieces[1..], fold)
        else None
      case Param(name) => Take(name, parts[1..], pieces, fold)
      case Optional(name) =>
        var taken := Take(name, parts[1..], pieces, fold);
        if taken.Some? then taken else MatchParts(parts[1..], pieces, fold)
  }

  function Take(name: string, rest: seq<Part>, pieces: seq<string>, fold: char -> char):
    Option<map<string, string>>
    decreases |rest|, 1
  {
    if pieces != [] && pieces[0] != "" then With(name, pieces[0], MatchParts(rest, pieces[1..], fold))
    else None
  }

  // ----- what matching means ------------------------------------------------------------

  /** Which parts a match uses: every one except the optional segments it leaves out. */
  ghost predicate ValidUse(use: seq<bool>, parts: seq<Part>) {
    |use| == |parts| && forall i :: 0 <= i < |parts| && !parts[i].Optional? ==> use[i]
  }

  function Used(parts: seq<Part>, use: seq<bool>): seq<Part>
    requires |use| == |parts|
  {
    if parts == [] then []
    else (if use[0] then [parts[0]] else []) + Used(parts[1..], use[1..])
  }

  predicate FitsOne(p: Part, piece: string, fold: char -> char) {
    match p
    case Static(text) => Same(text, piece, fold)
    case Param(_) => piece != ""
    case Optional(_) => piece != ""
  }

  /** Part by part against piece by piece. */
  ghost predicate Fits(parts: seq<Part>, body: seq<string>, fold: char -> char) {
    |parts| == |body| && forall i :: 0 <= i < |parts| ==> FitsOne(parts[i], body[i], fold)
  }

  function Bound(parts: seq<Part>, body: seq<string>): map<string, string>
    requires |parts| == |body|
  {
    if parts == [] then map[]
    else
      var rest := Bound(parts[1..], body[1..]);
      if Named(parts[0]) then rest[parts[0].name := body[0]] else rest
  }

  /** `a` takes an optional segment at the first place where the two differ. */
  ghost predicate TriedBefore(a: seq<bool>, b: seq<bool>) {
    |a| == |b| && exists k :: 0 <= k < |a| && a[..k] == b[..k] && a[k] && !b[k]
  }

  /** A way to read the pieces: which optional segments are present. */
  ghost predicate Reading(use: seq<bool>, parts: seq<Part>, pieces: seq<string>, fold: char -> char) {
    ValidUse(use, parts) && Fits(Used(parts, use), Body(pieces), fold)
  }

  ghost predicate Readable(parts: seq<Part>, pieces: seq<string>, fold: char -> char) {
    exists use :: Reading(use, parts, pieces, fold)
  }

  lemma BodyTail(pieces: seq<string>)
    requires Body(pieces) != []
    ensures pieces != [] && Body(pieces)[0] == pieces[0]
    ensures Body(pieces[1..]) == Body(pieces)[1..]
  {
    if |pieces| == 1 { assert pieces[1..] == []; }
  }

  lemma NonEmptyFront(pieces: seq<string>)
    requires pieces != [] && pieces[0] != ""
    ensures Body(pieces) != [] && Body(pieces)[0] == pieces[0]
    ensures Body(pieces[1..]) == Body(pieces)[1..]
  {
    BodyTail(pieces);
  }

  lemma UseTail(use: seq<bool>, parts: seq<Part>)
    requires parts != [] && |use| == |parts| && use[0]
    ensures ValidUse(use, parts) <==> ValidUse(use[1..], parts[1..])
  {
    if ValidUse(use[1..], parts[1..]) {
      forall i | 0 <= i < |parts| && !parts[i].Optional? ensures use[i] {
        if i > 0 { assert use[1..][i - 1] && parts[1..][i - 1] == parts[i]; }
      }
    }
  }

  lemma FitsCons(p: Part, rest: seq<Part>, body: seq<string>, fold: char -> char)
    ensures Fits([p] + rest, body, fold) <==> body != [] && FitsOne(p, body[0], fold) && Fits(rest, body[1..], fold)
  {
    var all := [p] + rest;
    if body != [] && FitsOne(p, body[0], fold) && Fits(rest, body[1..], fold) {
      forall i | 0 <= i < |all| ensures FitsOne(all[i], body[i], fold) {
        if i > 0 { assert all[i] == rest[i - 1] && body[i] == body[1..][i - 1]; }
      }
    }
    if Fits(all, body, fold) {
      assert FitsOne(all[0], body[0], fold);
      forall i | 0 <= i < |rest| ensures FitsOne(rest[i], body[1..][i], fold) {
        assert FitsOne(all[i + 1], body[i + 1], fold);
      }
    }
  }

  lemma ReadingTaken(use: seq<bool>, parts: seq<Part>, pieces: seq<string>, fold: char -> char)
    requires Literal(parts) && parts != [] && |use| == |parts| && use[0]
    ensures Reading(use, parts, pieces, fold) <==>
      && pieces != [] && pieces[0] != "" && FitsOne(parts[0], pieces[0], fold)
      && Reading(use[1..], parts[1..], pieces[1..], fold)
  {
    var rest := Used(parts[1..], use[1..]);
    assert Used(parts, use) == [parts[0]] + rest;
    UseTail(use, parts);
    FitsCons(parts[0], rest, Body(pieces), fold);
    if pieces != [] && pieces[0] != "" { NonEmptyFront(pieces); }
  }

  lemma ReadingSkipped(use: seq<bool>, parts: seq<Part>, pieces: seq<string>, fold: char -> char)
    requires parts != [] && |use| == |parts| && !use[0]
    ensures Reading(use, parts, pieces, fold) <==>
      parts[0].Optional? && Reading(use[1..], parts[1..], pieces, fold)
  {
    assert Used(parts, use) == Used(parts[1..], use[1..]);
    if parts[0].Optional? && ValidUse(use[1..], parts[1..]) {
      forall i | 0 <= i < |parts| && !parts[i].Optional? ensures use[i] {
        if i > 0 { assert use[1..][i - 1] && parts[1..][i - 1] == parts[i]; }
      }
    }
  }

  lemma TriedBeforeCons(a: seq<bool>, b: seq<bool>)
    requires |a| == |b| > 0 && a[0] == b[0] && TriedBefore(a[1..], b[1..])
    ensures TriedBefore(a, b)
  {
    var k :| 0 <= k < |a[1..]| && a[1..][..k] == b[1..][..k] && a[1..][k] && !b[1..][k];
    assert a[..k + 1] == [a[0]] + a[1..][..k];
    assert b[..k + 1] == [b[0]] + b[1..][..k];
    assert a[k + 1] && !b[k + 1];
  }

  lemma TakingComesFirst(a: seq<bool>, b: seq<bool>)
    requires |a| == |b| > 0 && a[0] && !b[0]
    ensures TriedBefore(a, b)
  {
    assert a[..0] == b[..0];
  }

  /** Extending the preferred reading of the rest gives the preferred reading with this start. */
  lemma PreferredCons(use: seq<bool>, parts: seq<Part>, pieces: seq<string>, fold: char -> char)
    requires Literal(parts) && parts != [] && |use| == |parts| && Reading(use, parts, pieces, fold)
    requires var rest := if use[0] && pieces != [] then pieces[1..] else pieces;
      forall other :: Reading(other, parts[1..], rest, fold) && other != use[1..] ==>
        TriedBefore(use[1..], other)
    requires use[0] || forall other :: !(Reading(other, parts, pieces, fold) && other[0])
    ensures forall other :: Reading(other, parts, pieces, fold) && other != use ==>
        TriedBefore(use, other)
  {
    forall other | Reading(other, parts, pieces, fold) && other != use
      ensures TriedBefore(use, other)
    {
      if other[0] != use[0] {
        TakingComesFirst(use, other);
      } else {
        assert other == [other[0]] + other[1..] && use == [use[0]] + use[1..];
        if use[0] {
          ReadingTaken(use, parts, pieces, fold);
          ReadingTaken(other, parts, pieces, fold);
        } else {
          ReadingSkipped(other, parts, pieces, fold);
        }
        TriedBeforeCons(use, other);
      }
    }
  }

  /** The search fails only when there is no reading at all. */
  lemma {:induction false} ReadingIsFound(
      use: seq<bool>, parts: seq<Part>, pieces: seq<string>, fold: char -> char)
    requires Literal(parts) && Reading(use, parts, pieces, fold)
    ensures MatchParts(parts, pieces, fold).Some?
  {
    if parts != [] {
      if use[0] {
        ReadingTaken(use, parts, pieces, fold);
        ReadingIsFound(use[1..], parts[1..], pieces[1..], fold);
      } else {
        ReadingSkipped(use, parts, pieces, fold);
        ReadingIsFound(use[1..], parts[1..], pieces, fold);
      }
    }
  }

  /** The match takes the first part. */
  predicate TakesFirst(parts: seq<Part>, pieces: seq<string>, fold: char -> char)
    requires parts != []
  {
    && pieces != [] && pieces[0] != "" && FitsOne(parts[0], pieces[0], fold)
    && MatchParts(parts[1..], pieces[1..], fold).Some?
  }

  lemma MatchSplit(parts: seq<Part>, pieces: seq<string>, fold: char -> char)
    requires Literal(parts) && parts != []
    ensures TakesFirst(parts, pieces, fold) ==>
      var rest := MatchParts(parts[1..], pieces[1..], fold).value;
      MatchParts(parts, pieces, fold) ==
        Some(if Named(parts[0]) then rest[parts[0].name := pieces[0]] else rest)
    ensures !TakesFirst(parts, pieces, fold) ==>
      MatchParts(parts, pieces, fold) ==
        if parts[0].Optional? then MatchParts(parts[1..], pieces, fold) else None
  {
  }

  lemma BoundTaken(use: seq<bool>, parts: seq<Part>, pieces: seq<string>, fold: char -> char)
    requires Literal(parts) && parts != [] && Reading(use, parts, pieces, fold) && use[0]
    ensures pieces != [] && Reading(use[1..], parts[1..], pieces[1..], fold)
    ensures var rest := Bound(Used(parts[1..], use[1..]), Body(pieces[1..]));
      Bound(Used(parts, use), Body(pieces)) ==
        if Named(parts[0]) then rest[parts[0].name := pieces[0]] else rest
  {
    ReadingTaken(use, parts, pieces, fold);
    NonEmptyFront(pieces);
    assert Used(parts, use)[1..] == Used(parts[1..], use[1..]);
  }

  /** What the backtracking search finds is the reading that keeps optional segments as early as
      possible, and the params are what its parts bind. */
  lemma {:induction false} MatchReads(parts: seq<Part>, pieces: seq<string>, fold: char -> char)
    returns (use: seq<bool>)
    requires Literal(parts) && MatchParts(parts, pieces, fold).Some?
    ensures Reading(use, parts, pieces, fold)
    ensures MatchParts(parts, pieces, fold).value == Bound(Used(parts, use), Body(pieces))
    ensures forall other :: Reading(other, parts, pieces, fold) && other != use ==>
        TriedBefore(use, other)
  {
    if parts == [] {
      use := [];
      return;
    }
    MatchSplit(parts, pieces, fold);
    if TakesFirst(parts, pieces, fold) {
      var tail := MatchReads(parts[1..], pieces[1..], fold);
      use := [true] + tail;
      assert use[1..] == tail;
      ReadingTaken(use, parts, pieces, fold);
      BoundTaken(use, parts, pieces, fold);
    } else {
      var tail := MatchReads(parts[1..], pieces, fold);
      use := [false] + tail;
      assert use[1..] == tail;
      ReadingSkipped(use, parts, pieces, fold);
      assert Used(parts, use) == Used(parts[1..], tail);
      forall other | Reading(other, parts, pieces, fold) ensures !other[0] {
        if other[0] {
          ReadingTaken(other, parts, pieces, fold);
          ReadingIsFound(other[1..], parts[1..], pieces[1..], fold);
        }
      }
    }
    PreferredCons(use, parts, pieces, fold);
  }

  /** A route matches exactly the paths that can be read with its optional segments present or not. */
  lemma MatchIff(parts: seq<Part>, pieces: seq<string>, fold: char -> char)
    requires Literal(parts)
    ensures MatchParts(parts, pieces, fold).Some? <==> Readable(parts, pieces, fold)
  {
    if MatchParts(parts, pieces, fold).Some? {
      var use := MatchReads(parts, pieces, fold);
    } else if Readable(parts, pieces, fold) {
      var use :| Reading(use, parts, pieces, fold);
      ReadingIsFound(use, parts, pieces, fold);
    }
  }

  // ----- paths that differ in spelling only ---------------------------------------------

  /** The same pieces up to letter case and one trailing slash. */
  ghost predicate Alike(p: seq<string>, q: seq<string>, fold: char -> char) {
    && |Body(p)| == |Body(q)|
    && forall i :: 0 <= i < |Body(p)| ==> Same(Body(p)[i], Body(q)[i], fold)
  }

  ghost predicate Preferred(use: seq<bool>, parts: seq<Part>, pieces: seq<string>, fold: char -> char) {
    && Reading(use, parts, pieces, fold)
    && forall other :: Reading(other, parts, pieces, fold) && other != use ==> TriedBefore(use, other)
  }

  lemma AlikeReads(use: seq<bool>, parts: seq<Part>, p: seq<string>, q: seq<string>, fold: char -> char)
    requires Alike(p, q, fold)
    ensures Reading(use, parts, p, fold) <==> Reading(use, parts, q, fold)
  {
    if ValidUse(use, parts) && |Used(parts, use)| == |Body(p)| {
      var used := Used(parts, use);
      forall i | 0 <= i < |used|
        ensures FitsOne(used[i], Body(p)[i], fold) <==> FitsOne(used[i], Body(q)[i], fold)
      {
        assert Same(Body(p)[i], Body(q)[i], fold);
      }
    }
  }

  lemma BeforeIsOneWay(a: seq<bool>, b: seq<bool>)
    requires TriedBefore(a, b)
    ensures !TriedBefore(b, a)
  {
    var j :| 0 <= j < |a| && a[..j] == b[..j] && a[j] && !b[j];
    forall k | 0 <= k < |b| ensures !(b[..k] == a[..k] && b[k] && !a[k]) {
      if j < k {
        assert a[..k][j] == a[j] && b[..k][j] == b[j];
      } else if k < j {
        assert a[..j][k] == a[k] && b[..j][k] == b[k];
      }
    }
  }

  lemma PreferredUnique(
      a: seq<bool>, b: seq<bool>, parts: seq<Part>, pieces: seq<string>, fold: char -> char)
    requires Preferred(a, parts, pieces, fold) && Preferred(b, parts, pieces, fold)
    ensures a == b
  {
    if TriedBefore(a, b) { BeforeIsOneWay(a, b); }
  }

  /** Alike paths match alike: the same optional segments, hence the same params but for spelling. */
  lemma AlikeMatches(parts: seq<Part>, p: seq<string>, q: seq<string>, fold: char -> char)
    requires Literal(parts) && Alike(p, q, fold)
    ensures MatchParts(parts, p, fold).Some? <==> MatchParts(parts, q, fold).Some?
    ensures forall use :: Preferred(use, parts, p, fold) && MatchParts(parts, p, fold).Some? ==>
      && Reading(use, parts, q, fold)
      && MatchParts(parts, p, fold).value == Bound(Used(parts, use), Body(p))
      && MatchParts(parts, q, fold).value == Bound(Used(parts, use), Body(q))
  {
    forall use ensures Reading(use, parts, p, fold) <==> Reading(use, parts, q, fold) {
      AlikeReads(use, parts, p, q, fold);
    }
    if MatchParts(parts, p, fold).Some? {
      var u := MatchReads(parts, p, fold);
      ReadingIsFound(u, parts, q, fold);
      var v := MatchReads(parts, q, fold);
      PreferredUnique(u, v, parts, p, fold);
      forall use | Preferred(use, parts, p, fold) ensures use == u {
        PreferredUnique(use, u, parts, p, fold);
      }
    } else if MatchParts(parts, q, fold).Some? {
      var v := MatchReads(parts, q, fold);
      ReadingIsFound(v, parts, p, fold);
    }
  }

  // ----- printing a pattern -------------------------------------------------------------

  function Show(p: Part, params: map<string, string>): seq<string> {
    if p.Static? then [p.text] else if p.name in params then [params[p.name]] else []
  }

  function Print(parts: seq<Part>, params: map<string, string>): seq<string> {
    if parts == [] then []
    else Print(parts[..|parts| - 1], params) + Show(parts[|parts| - 1], params)
  }

  function PathOf(pattern: string, params: map<string, string>): string {
    "/" + Join(Print(Parts(pattern), params))
  }

  lemma PrintStep(segs: seq<string>, i: nat, params: map<string, string>)
    requires i < |segs|
    ensures Print(PartsOf(segs[..i + 1]), params) ==
      Print(PartsOf(segs[..i]), params) +
      if segs[i] == "" then [] else Show(PartOf(segs[i]), params)
  {
    assert segs[..i + 1][..i] == segs[..i];
    var parts := PartsOf(segs[..i]);
    if segs[i] == "" {
      assert PartsOf(segs[..i + 1]) == parts;
    } else {
      assert (parts + [PartOf(segs[i])])[..|parts|] == parts;
    }
  }

  /** `_generate_path`: the loop over the segments. */
  method GeneratePath(pattern: string, params: map<string, string>) returns (path: string)
    ensures path == PathOf(pattern, params)
  {
    var out := PrintSegments(Segments(pattern), params);
    path := "/" + Join(out);
  }

  method PrintSegments(segs: seq<string>, params: map<string, string>) returns (out: seq<string>)
    ensures out == Print(PartsOf(segs), params)
  {
    out := [];
    for i := 0 to |segs|
      invariant out == Print(PartsOf(segs[..i]), params)
    {
      PrintStep(segs, i, params);
      if segs[i] != "" {
        var part := PartOf(segs[i]);
        if part.Static? {
          out := out + [segs[i]];
        } else if part.name in params {
          out := out + [params[part.name]];
        }
      }
    }
    assert segs[..|segs|] == segs;
  }

  lemma {:induction false} PrintCons(parts: seq<Part>, params: map<string, string>)
    requires parts != []
    ensures Print(parts, params) == Show(parts[0], params) + Print(parts[1..], params)
  {
    var n := |parts| - 1;
    if n > 0 {
      PrintCons(parts[..n], params);
      assert parts[..n][1..] == parts[1..][..n - 1];
    }
  }

  /** The pieces with each literal spelled as the pattern spells it. */
  function Spelled(used: seq<Part>, body: seq<string>): seq<string>
    requires |used| == |body|
  {
    if used == [] then []
    else [if used[0].Static? then used[0].text else body[0]] + Spelled(used[1..], body[1..])
  }

  lemma {:induction false} SpelledAt(used: seq<Part>, body: seq<string>)
    requires |used| == |body|
    ensures |Spelled(used, body)| == |used|
    ensures forall i :: 0 <= i < |used| ==>
      Spelled(used, body)[i] == if used[i].Static? then used[i].text else body[i]
    ensures Bound(used, Spelled(used, body)) == Bound(used, body)
  {
    if used != [] {
      SpelledAt(used[1..], body[1..]);
      var s := Spelled(used, body);
      assert s[1..] == Spelled(used[1..], body[1..]);
    }
  }

  lemma {:induction false} BoundNames(parts: seq<Part>, use: seq<bool>, body: seq<string>)
    requires |use| == |parts| && |Used(parts, use)| == |body|
    ensures forall n :: n in Bound(Used(parts, use), body) ==> NameIn(n, parts)
  {
    if parts != [] {
      var rest := Used(parts[1..], use[1..]);
      var tail := if use[0] then body[1..] else body;
      if use[0] { assert Used(parts, use)[1..] == rest; } else { assert Used(parts, use) == rest; }
      BoundNames(parts[1..], use[1..], tail);
      forall n | n in Bound(Used(parts, use), body) ensures NameIn(n, parts) {
        if !(use[0] && Named(parts[0]) && n == parts[0].name) { NameInTail(n, parts); }
      }
    }
  }

  lemma NameInTail(n: string, parts: seq<Part>)
    requires parts != [] && NameIn(n, parts[1..])
    ensures NameIn(n, parts)
    ensures NamesDistinct(parts) && Named(parts[0]) ==> n != parts[0].name
  {
    var i :| 0 <= i < |parts[1..]| && Named(parts[1..][i]) && parts[1..][i].name == n;
    assert parts[i + 1].name == n;
  }

  /** Printing what a reading bound spells out that reading. */
  lemma {:induction false} PrintSpells(
      parts: seq<Part>, use: seq<bool>, body: seq<string>, params: map<string, string>)
    requires NamesDistinct(parts) && ValidUse(use, parts) && |Used(parts, use)| == |body|
    requires var bound := Bound(Used(parts, use), body);
      forall n :: NameIn(n, parts) ==>
        (n in params <==> n in bound) && (n in params ==> params[n] == bound[n])
    ensures Print(parts, params) == Spelled(Used(parts, use), body)
  {
    if parts != [] {
      PrintCons(parts, params);
      var bound := Bound(Used(parts, use), body);
      var rest := Used(parts[1..], use[1..]);
      var tail := if use[0] then body[1..] else body;
      if use[0] { assert Used(parts, use)[1..] == rest; } else { assert Used(parts, use) == rest; }
      var inner := Bound(rest, tail);
      BoundNames(parts[1..], use[1..], tail);
      forall n | NameIn(n, parts[1..])
        ensures (n in params <==> n in inner) && (n in params ==> params[n] == inner[n])
      {
        NameInTail(n, parts);
      }
      PrintSpells(parts[1..], use[1..], tail, params);
      if Named(parts[0]) {
        assert NameIn(parts[0].name, parts);
        if !use[0] && parts[0].name in inner { NameInTail(parts[0].name, parts); }
      }
    }
  }

  lemma {:induction false} UsedLiteral(parts: seq<Part>, use: seq<bool>)
    requires |use| == |parts| && Literal(parts)
    ensures Literal(Used(parts, use))
  {
    if parts != [] { UsedLiteral(parts[1..], use[1..]); }
  }

  lemma PiecesSlashFree(path: string)
    ensures SlashFree(Pieces(path))
  {
    SplitSlashFree(path);
    if path != "" { SplitSlashFree(path[1..]); }
  }

  /** A reading respelled is read the same way and is a path of its own. */
  lemma RespelledIsAlike(used: seq<Part>, pieces: seq<string>, out: seq<string>, fold: char -> char)
    requires Literal(used) && Fits(used, Body(pieces), fold) && SlashFree(pieces)
    requires out == Spelled(used, Body(pieces))
    ensures Alike(pieces, Pieces("/" + Join(out)), fold)
    ensures Body(Pieces("/" + Join(out))) == out
  {
    var body := Body(pieces);
    SpelledAt(used, body);
    forall i | 0 <= i < |out| ensures out[i] != "" && '/' !in out[i] && Same(body[i], out[i], fold) {
      assert FitsOne(used[i], body[i], fold);
    }
    if out != [] { SplitJoin(out); }
    assert ("/" + Join(out))[1..] == Join(out);
  }

  /** One route: its canonical path is read with the same params. */
  lemma CanonicalMatches(pattern: string, path: string, fold: char -> char)
    requires Compiles(Parts(pattern)) && MatchParts(Parts(pattern), Pieces(path), fold).Some?
    ensures var params := MatchParts(Parts(pattern), Pieces(path), fold).value;
      && Alike(Pieces(path), Pieces(PathOf(pattern, params)), fold)
      && MatchParts(Parts(pattern), Pieces(PathOf(pattern, params)), fold) == Some(params)
  {
    var parts, p := Parts(pattern), Pieces(path);
    var params := MatchParts(parts, p, fold).value;
    PatternLiteral(pattern);
    PiecesSlashFree(path);
    var use := MatchReads(parts, p, fold);
    var used := Used(parts, use);
    PrintSpells(parts, use, Body(p), params);
    var out := Print(parts, params);
    UsedLiteral(parts, use);
    RespelledIsAlike(used, p, out, fold);
    var q := Pieces(PathOf(pattern, params));
    AlikeMatches(parts, p, q, fold);
    SpelledAt(used, Body(p));
    assert Preferred(use, parts, p, fold);
  }

  // ----- the route table ----------------------------------------------------------------

  /** The first route that matches; a pattern that does not compile raises when it is reached. */
  function Find(routes: seq<Route>, i: nat, pieces: seq<string>, fold: char -> char):
    Result<Option<Hit>, string>
    requires i <= |routes|
    decreases |routes| - i
  {
    if i == |routes| then Success(None)
    else
      var parts := Parts(routes[i].pattern);
      if !Compiles(parts) then Failure(routes[i].pattern)
      else
        var m := MatchParts(parts, pieces, fold);
        if m.Some? then Success(Some(Hit(i, m.value))) else Find(routes, i + 1, pieces, fold)
  }

  function Winner(routes: seq<Route>, path: string, fold: char -> char): Result<Option<Hit>, string> {
    Find(routes, 0, Pieces(path), fold)
  }

  predicate Wins(routes: seq<Route>, path: string, fold: char -> char) {
    Winner(routes, path, fold).Success? && Winner(routes, path, fold).value.Some?
  }

  function HitOf(routes: seq<Route>, path: string, fold: char -> char): Hit
    requires Wins(routes, path, fold)
  {
    Winner(routes, path, fold).value.value
  }

  /** `match`: the loop over the table. */
  method Match(routes: seq<Route>, path: string, fold: char -> char)
    returns (r: Result<Option<Hit>, string>)
    ensures r == Winner(routes, path, fold)
  {
    var pieces := Pieces(path);
    for i := 0 to |routes|
      invariant Winner(routes, path, fold) == Find(routes, i, pieces, fold)
    {
      var compiled := Compile(routes[i].pattern);
      if compiled.Failure? { return Failure(compiled.error); }
      var m := MatchParts(compiled.value, pieces, fold);
      if m.Some? { return Success(Some(Hit(i, m.value))); }
    }
    r := Success(None);
  }

  predicate Misses(pattern: string, pieces: seq<string>, fold: char -> char) {
    MatchParts(Parts(pattern), pieces, fold).None?
  }

  /** The hit is a route that compiles and matches with these params, and none before it matches. */
  predicate IsFirst(routes: seq<Route>, i: nat, hit: Hit, pieces: seq<string>, fold: char -> char) {
    && i <= hit.route < |routes| && Compiles(Parts(routes[hit.route].pattern))
    && MatchParts(Parts(routes[hit.route].pattern), pieces, fold) == Some(hit.params)
    && forall j :: i <= j < hit.route ==> Misses(routes[j].pattern, pieces, fold)
  }

  /** The winner matches and no earlier route does. */
  lemma {:induction false} FindFacts(routes: seq<Route>, i: nat, pieces: seq<string>, fold: char -> char)
    requires i <= |routes|
    requires Find(routes, i, pieces, fold).Success? && Find(routes, i, pieces, fold).value.Some?
    ensures IsFirst(routes, i, Find(routes, i, pieces, fold).value.value, pieces, fold)
    decreases |routes| - i
  {
    if Misses(routes[i].pattern, pieces, fold) {
      FindFacts(routes, i + 1, pieces, fold);
    }
  }

  /** Alike paths win the same route. */
  lemma {:induction false} FindAlike(
      routes: seq<Route>, i: nat, p: seq<string>, q: seq<string>, fold: char -> char)
    requires i <= |routes| && Alike(p, q, fold)
    ensures var (a, b) := (Find(routes, i, p, fold), Find(routes, i, q, fold));
      && (a.Failure? || a.value.None? ==> a == b)
      && (a.Success? && a.value.Some? ==>
        b.Success? && b.value.Some? && a.value.value.route == b.value.value.route)
    decreases |routes| - i
  {
    if i < |routes| {
      PatternLiteral(routes[i].pattern);
      AlikeMatches(Parts(routes[i].pattern), p, q, fold);
      FindAlike(routes, i + 1, p, q, fold);
    }
  }

  function CanonicalPath(routes: seq<Route>, path: string, fold: char -> char): string
    requires Wins(routes, path, fold)
    requires HitOf(routes, path, fold).route < |routes|
  {
    var hit := HitOf(routes, path, fold);
    PathOf(routes[hit.route].pattern, hit.params)
  }

  /** The canonical path wins the same route with the same params, so it is its own canonical. */
  lemma CanonicalIsFixpoint(routes: seq<Route>, path: string, fold: char -> char)
    requires Wins(routes, path, fold)
    ensures HitOf(routes, path, fold).route < |routes|
    ensures var c := CanonicalPath(routes, path, fold);
      && Wins(routes, c, fold)
      && HitOf(routes, c, fold) == HitOf(routes, path, fold)
      && CanonicalPath(routes, c, fold) == c
  {
    FindFacts(routes, 0, Pieces(path), fold);
    var hit := HitOf(routes, path, fold);
    var pattern := routes[hit.route].pattern;
    CanonicalMatches(pattern, path, fold);
    var c := PathOf(pattern, hit.params);
    FindAlike(routes, 0, Pieces(path), Pieces(c), fold);
    FindFacts(routes, 0, Pieces(c), fold);
  }

  /** Alike paths whose captured segments are spelled the same. */
  ghost predicate SameButForLiterals(
      parts: seq<Part>, p: seq<string>, q: seq<string>, fold: char -> char) {
    && Alike(p, q, fold)
    && exists use :: Preferred(use, parts, p, fold) && CapturesAgree(Used(parts, use), Body(p), Body(q))
  }

  ghost predicate CapturesAgree(used: seq<Part>, p: seq<string>, q: seq<string>) {
    |used| == |p| == |q| && forall i :: 0 <= i < |used| && Named(used[i]) ==> p[i] == q[i]
  }

  lemma {:induction false} BoundAgree(used: seq<Part>, p: seq<string>, q: seq<string>)
    requires CapturesAgree(used, p, q)
    ensures Bound(used, p) == Bound(used, q)
  {
    if used != [] {
      forall i | 0 <= i < |used[1..]| && Named(used[1..][i]) ensures p[1..][i] == q[1..][i] {
        assert Named(used[i + 1]);
      }
      BoundAgree(used[1..], p[1..], q[1..]);
    }
  }

  /** Two paths share a canonical path exactly when they differ only in the letter case of literal
      segments and in one trailing slash. */
  lemma SharedCanonicalIff(routes: seq<Route>, p: string, q: string, fold: char -> char)
    requires Wins(routes, p, fold)
    ensures HitOf(routes, p, fold).route < |routes|
    ensures Wins(routes, q, fold) ==> HitOf(routes, q, fold).route < |routes|
    ensures (Wins(routes, q, fold) &&
      CanonicalPath(routes, q, fold) == CanonicalPath(routes, p, fold)) <==>
        SameButForLiterals(
          Parts(routes[HitOf(routes, p, fold).route].pattern), Pieces(p), Pieces(q), fold)
  {
    FindFacts(routes, 0, Pieces(p), fold);
    var pattern := routes[HitOf(routes, p, fold).route].pattern;
    PatternLiteral(pattern);
    var use := MatchReads(Parts(pattern), Pieces(p), fold);
    assert Preferred(use, Parts(pattern), Pieces(p), fold);
    if Wins(routes, q, fold) { FindFacts(routes, 0, Pieces(q), fold); }
    if Wins(routes, q, fold) && CanonicalPath(routes, q, fold) == CanonicalPath(routes, p, fold) {
      SharedIsSame(routes, p, q, use, fold);
    }
    if SameButForLiterals(Parts(pattern), Pieces(p), Pieces(q), fold) {
      SameIsShared(routes, p, q, fold);
    }
  }

  lemma SameIsShared(routes: seq<Route>, p: string, q: string, fold: char -> char)
    requires Wins(routes, p, fold) && HitOf(routes, p, fold).route < |routes|
    requires SameButForLiterals(
      Parts(routes[HitOf(routes, p, fold).route].pattern), Pieces(p), Pieces(q), fold)
    ensures Wins(routes, q, fold) && HitOf(routes, q, fold) == HitOf(routes, p, fold)
  {
    var parts := Parts(routes[HitOf(routes, p, fold).route].pattern);
    PatternLiteral(routes[HitOf(routes, p, fold).route].pattern);
    FindAlike(routes, 0, Pieces(p), Pieces(q), fold);
    FindFacts(routes, 0, Pieces(p), fold);
    FindFacts(routes, 0, Pieces(q), fold);
    AlikeMatches(parts, Pieces(p), Pieces(q), fold);
    var use :| Preferred(use, parts, Pieces(p), fold) &&
      CapturesAgree(Used(parts, use), Body(Pieces(p)), Body(Pieces(q)));
    BoundAgree(Used(parts, use), Body(Pieces(p)), Body(Pieces(q)));
  }

  /** Paths with one canonical path are alike and print the same captured segments. */
  lemma SharedIsSame(
      routes: seq<Route>, p: string, q: string, use: seq<bool>, fold: char -> char)
    requires Wins(routes, p, fold) && HitOf(routes, p, fold).route < |routes|
    requires Wins(routes, q, fold) && HitOf(routes, q, fold).route < |routes|
    requires CanonicalPath(routes, q, fold) == CanonicalPath(routes, p, fold)
    requires Preferred(
      use, Parts(routes[HitOf(routes, p, fold).route].pattern), Pieces(p), fold)
    ensures SameButForLiterals(
      Parts(routes[HitOf(routes, p, fold).route].pattern), Pieces(p), Pieces(q), fold)
  {
    CanonicalIsFixpoint(routes, p, fold);
    CanonicalIsFixpoint(routes, q, fold);
    FindFacts(routes, 0, Pieces(p), fold);
    FindFacts(routes, 0, Pieces(q), fold);
    var hit := HitOf(routes, p, fold);
    SamePrintSameCaptures(routes[hit.route].pattern, p, q, use, hit.params, fold);
  }

  lemma SamePrintSameCaptures(
      pattern: string, p: string, q: string, use: seq<bool>, params: map<string, string>,
      fold: char -> char)
    requires Compiles(Parts(pattern))
    requires MatchParts(Parts(pattern), Pieces(p), fold) == Some(params)
    requires MatchParts(Parts(pattern), Pieces(q), fold) == Some(params)
    requires Preferred(use, Parts(pattern), Pieces(p), fold)
    ensures SameButForLiterals(Parts(pattern), Pieces(p), Pieces(q), fold)
  {
    CanonicalMatches(pattern, p, fold);
    CanonicalMatches(pattern, q, fold);
    AlikeJoin(Pieces(p), Pieces(PathOf(pattern, params)), Pieces(q), fold);
    AlikePreferred(use, Parts(pattern), Pieces(p), Pieces(q), fold);
    SpelledByPrinting(pattern, p, use, params, fold);
    SpelledByPrinting(pattern, q, use, params, fold);
    SpelledAlikeCaptures(Used(Parts(pattern), use), Body(Pieces(p)), Body(Pieces(q)));
  }

  lemma SpelledAlikeCaptures(used: seq<Part>, p: seq<string>, q: seq<string>)
    requires |used| == |p| == |q| && Spelled(used, p) == Spelled(used, q)
    ensures CapturesAgree(used, p, q)
  {
    SpelledAt(used, p);
    SpelledAt(used, q);
    forall i | 0 <= i < |used| && Named(used[i]) ensures p[i] == q[i] {
      assert Spelled(used, p)[i] == Spelled(used, q)[i];
    }
  }

  lemma AlikePreferred(
      use: seq<bool>, parts: seq<Part>, p: seq<string>, q: seq<string>, fold: char -> char)
    requires Alike(p, q, fold) && Preferred(use, parts, p, fold)
    ensures Preferred(use, parts, q, fold)
  {
    forall other ensures Reading(other, parts, p, fold) <==> Reading(other, parts, q, fold) {
      AlikeReads(other, parts, p, q, fold);
    }
  }

  lemma AlikeJoin(p: seq<string>, c: seq<string>, q: seq<string>, fold: char -> char)
    requires Alike(p, c, fold) && Alike(q, c, fold)
    ensures Alike(p, q, fold)
  {
    forall i | 0 <= i < |Body(p)| ensures Same(Body(p)[i], Body(q)[i], fold) {
      assert Same(Body(p)[i], Body(c)[i], fold) && Same(Body(q)[i], Body(c)[i], fold);
    }
  }

  lemma SpelledByPrinting(
      pattern: string, path: string, use: seq<bool>, params: map<string, string>, fold: char -> char)
    requires Compiles(Parts(pattern))
    requires MatchParts(Parts(pattern), Pieces(path), fold) == Some(params)
    requires Preferred(use, Parts(pattern), Pieces(path), fold)
    ensures var used := Used(Parts(pattern), use);
      && |used| == |Body(Pieces(path))|
      && Print(Parts(pattern), params) == Spelled(used, Body(Pieces(path)))
  {
    PatternLiteral(pattern);
    var p := Pieces(path);
    assert Alike(p, p, fold);
    AlikeMatches(Parts(pattern), p, p, fold);
    PrintSpells(Parts(pattern), use, Body(p), params);
  }

  // ----- a trailing slash ---------------------------------------------------------------

  lemma {:induction false} SplitTrailing(s: string)
    ensures Split(s + "/") == Split(s) + [""]
    ensures s != "" && s[|s| - 1] != '/' ==> Split(s)[|Split(s)| - 1] != ""
  {
    if s != "" {
      SplitTrailing(s[1..]);
      assert (s + "/")[1..] == s[1..] + "/";
    }
  }

  /** A slash added to a path that does not end in one changes nothing. */
  lemma TrailingSlashIsFree(routes: seq<Route>, path: string, fold: char -> char)
    requires path != "" && path[|path| - 1] != '/'
    ensures Pieces(path + "/") == Pieces(path) + [""] && Body(Pieces(path + "/")) == Pieces(path)
    ensures Winner(routes, path + "/", fold) == Winner(routes, path, fold)
  {
    if path[0] == '/' {
      SplitTrailing(path[1..]);
      assert (path + "/")[1..] == path[1..] + "/";
    } else {
      SplitTrailing(path);
    }
    FindSameBody(routes, 0, Pieces(path), Pieces(path + "/"), fold);
  }

  lemma {:induction false} FindSameBody(
      routes: seq<Route>, i: nat, p: seq<string>, q: seq<string>, fold: char -> char)
    requires i <= |routes| && Body(p) == Body(q)
    ensures Find(routes, i, p, fold) == Find(routes, i, q, fold)
    decreases |routes| - i
  {
    if i < |routes| {
      var parts := Parts(routes[i].pattern);
      PatternLiteral(routes[i].pattern);
      AlikeMatches(parts, p, q, fold);
      if MatchParts(parts, p, fold).Some? {
        var use := MatchReads(parts, p, fold);
        assert Preferred(use, parts, p, fold);
      }
      FindSameBody(routes, i + 1, p, q, fold);
    }
  }

  // ----- the query part of a canonical URL ----------------------------------------------

  /** A parsed query: pairs with a blank value are dropped, the others grouped by key. */
  function ParseQuery(pairs: seq<(string, string)>): map<string, seq<string>> {
    if pairs == [] then map[]
    else
      var rest := ParseQuery(pairs[..|pairs| - 1]);
      var (key, value) := pairs[|pairs| - 1];
      if value == "" then rest else rest[key := (if key in rest then rest[key] else []) + [value]]
  }

  function First(q: map<string, seq<string>>, key: string): Option<string> {
    if key in q && q[key] != [] then Some(q[key][0]) else None
  }

  /** The first value of each key the route canonicalises on. */
  function Kept(keys: seq<string>, q: map<string, seq<string>>): seq<(string, string)> {
    if keys == [] then []
    else
      var last := keys[|keys| - 1];
      Kept(keys[..|keys| - 1], q) +
        (if First(q, last).Some? then [(last, First(q, last).value)] else [])
  }

  /** `canonical_for`: the loop over the keys. */
  method CanonicalFor(route: Route, params: map<string, string>, query: seq<(string, string)>)
    returns (path: string, kept: seq<(string, string)>)
    ensures path == PathOf(route.pattern, params)
    ensures kept == Kept(route.keys, ParseQuery(query))
  {
    path := GeneratePath(route.pattern, params);
    kept := [];
    var q := ParseQuery(query);
    for i := 0 to |route.keys|
      invariant kept == Kept(route.keys[..i], q)
    {
      assert route.keys[..i + 1][..i] == route.keys[..i];
      var first := First(q, route.keys[i]);
      if first.Some? { kept := kept + [(route.keys[i], first.value)]; }
    }
    assert route.keys[..|route.keys|] == route.keys;
  }

  ghost predicate NoEmptyList(q: map<string, seq<string>>) { forall k :: k in q ==> q[k] != [] }

  function FirstAfter(before: Option<string>, here: bool, value: string): Option<string> {
    if here && value != "" && before.None? then Some(value) else before
  }

  lemma ParseStep(pairs: seq<(string, string)>, key: string, value: string)
    requires NoEmptyList(ParseQuery(pairs))
    ensures var (before, after) := (ParseQuery(pairs), ParseQuery(pairs + [(key, value)]));
      && NoEmptyList(after)
      && (forall k :: First(after, k) == FirstAfter(First(before, k), k == key, value))
  {
    var all := pairs + [(key, value)];
    assert all[..|all| - 1] == pairs;
  }

  lemma {:induction false} ParsedValuesFull(pairs: seq<(string, string)>)
    ensures forall k :: First(ParseQuery(pairs), k).Some? ==> First(ParseQuery(pairs), k).value != ""
    ensures NoEmptyList(ParseQuery(pairs))
  {
    if pairs != [] {
      var front, last := pairs[..|pairs| - 1], pairs[|pairs| - 1];
      ParsedValuesFull(front);
      ParseStep(front, last.0, last.1);
      assert front + [last] == pairs;
    }
  }

  lemma {:induction false} ReparsedFirst(keys: seq<string>, q: map<string, seq<string>>)
    requires forall k :: First(q, k).Some? ==> First(q, k).value != ""
    ensures forall k :: First(ParseQuery(Kept(keys, q)), k) == if k in keys then First(q, k) else None
    ensures NoEmptyList(ParseQuery(Kept(keys, q)))
  {
    if keys != [] {
      var front, last := keys[..|keys| - 1], keys[|keys| - 1];
      ReparsedFirst(front, q);
      ReparsedStep(front, last, q);
      assert front + [last] == keys;
    }
  }

  lemma ReparsedStep(front: seq<string>, last: string, q: map<string, seq<string>>)
    requires var before := ParseQuery(Kept(front, q));
      && NoEmptyList(before)
      && forall k :: First(before, k) == if k in front then First(q, k) else None
    requires forall k :: First(q, k).Some? ==> First(q, k).value != ""
    ensures var after := ParseQuery(Kept(front + [last], q));
      && NoEmptyList(after)
      && forall k :: First(after, k) == if k in front + [last] then First(q, k) else None
  {
    var keys := front + [last];
    assert keys[..|keys| - 1] == front;
    if First(q, last).Some? {
      ParseStep(Kept(front, q), last, First(q, last).value);
    } else {
      assert Kept(keys, q) == Kept(front, q);
    }
  }

  lemma {:induction false} KeptByFirst(
      keys: seq<string>, q: map<string, seq<string>>, r: map<string, seq<string>>)
    requires forall k :: k in keys ==> First(q, k) == First(r, k)
    ensures Kept(keys, q) == Kept(keys, r)
  {
    if keys != [] {
      assert keys[|keys| - 1] in keys;
      KeptByFirst(keys[..|keys| - 1], q, r);
    }
  }

  /** The query of a canonical URL canonicalises to itself. */
  lemma CanonicalQueryIsFixpoint(keys: seq<string>, query: seq<(string, string)>)
    ensures var kept := Kept(keys, ParseQuery(query));
      Kept(keys, ParseQuery(kept)) == kept
  {
    var q := ParseQuery(query);
    ParsedValuesFull(query);
    ReparsedFirst(keys, q);
    KeptByFirst(keys, q, ParseQuery(Kept(keys, q)));
  }

  // ----- what a pattern's text means ----------------------------------------------------

  /** Letters, digits and underscores, at least one. */
  predicate Wordlike(n: string) {
    n != "" && forall i :: 0 <= i < |n| ==>
      'a' <= n[i] <= 'z' || 'A' <= n[i] <= 'Z' || '0' <= n[i] <= '9' || n[i] == '_'
  }

  /** `:name` takes a segment, `:name?` may be absent, and anything else is literal. */
  lemma SegmentMeans(n: string, seg: string)
    ensures Wordlike(n) ==> PartOf(":" + n) == Param(n) && PartOf(":" + n + "?") == Optional(n)
    ensures (forall w :: Wordlike(w) ==> seg != ":" + w && seg != ":" + w + "?") ==> PartOf(seg) == Static(seg)
  {
    assert (":" + n)[1..] == n;
    var mark := ":" + n + "?";
    assert mark[1..|mark| - 1] == n && mark[1..] == n + "?";
    assert mark[1..][|n|] == '?';
    if seg != "" && seg[0] == ':' {
      var w := seg[1..];
      assert seg == ":" + w;
      if |seg| > 1 && seg[|seg| - 1] == '?' {
        var v := seg[1..|seg| - 1];
        assert seg == ":" + v + "?";
        assert IsWord(v) ==> Wordlike(v);
      }
      assert IsWord(w) ==> Wordlike(w);
    }
  }

  lemma CutFirst(c: char, a: seq<string>, b: seq<string>)
    requires a != []
    ensures [""] + (a + b) == ([""] + a) + b
    ensures [[c] + (a + b)[0]] + (a + b)[1..] == ([[c] + a[0]] + a[1..]) + b
  {
  }

  lemma {:induction false} SplitConcat(p: string, q: string)
    ensures Split(p + "/" + q) == Split(p) + Split(q)
  {
    var text := p + "/" + q;
    if p == "" {
      assert text[1..] == q;
    } else {
      SplitConcat(p[1..], q);
      assert text[1..] == p[1..] + "/" + q && text[0] == p[0];
      CutFirst(p[0], Split(p[1..]), Split(q));
    }
  }

  lemma {:induction false} PartsOfConcat(a: seq<string>, b: seq<string>)
    ensures PartsOf(a + b) == PartsOf(a) + PartsOf(b)
  {
    if b == [] {
      assert a + b == a;
    } else {
      PartsOfConcat(a, b[..|b| - 1]);
      assert (a + b)[..|a + b| - 1] == a + b[..|b| - 1];
    }
  }

  /** Stripping the outer slashes only drops empty segments. */
  lemma {:induction false} StripDropsEmpties(s: string)
    ensures PartsOf(Split(Strip(s))) == PartsOf(Split(s))
    decreases |s|
  {
    if s != "" {
      if s[0] == '/' {
        StripDropsEmpties(s[1..]);
        PartsOfConcat([""], Split(s[1..]));
      } else if s[|s| - 1] == '/' {
        var t := s[..|s| - 1];
        StripDropsEmpties(t);
        SplitTrailing(t);
        assert t + "/" == s;
        PartsOfConcat(Split(t), [""]);
      }
    }
  }

  /** A pattern with one more segment has one more part. */
  lemma PartsAppend(p: string, seg: string)
    requires seg != "" && '/' !in seg
    ensures Parts(p + "/" + seg) == Parts(p) + [PartOf(seg)]
    ensures Parts("") == []
  {
    StripDropsEmpties(p + "/" + seg);
    StripDropsEmpties(p);
    SplitConcat(p, seg);
    SplitPrefix(seg, "");
    PartsOfConcat(Split(p), [seg]);
    assert PartsOf([seg]) == [PartOf(seg)];
    assert Split("") == [""] && PartsOf([""]) == [];
  }

  /** Equal up to letter case. */
  predicate SameLetters(a: string, b: string, fold: char -> char) {
    |a| == |b| && forall i :: 0 <= i < |a| ==> fold(a[i]) == fold(b[i])
  }

  predicate Bare(lit: string) { lit != "" && '/' !in lit && lit[0] != ':' }

  lemma TwoPartPattern(lit: string, n: string, mark: string)
    requires Bare(lit) && Wordlike(n) && (mark == "" || mark == "?")
    ensures Parts("/" + lit + "/:" + n + mark) == [Static(lit), if mark == "?" then Optional(n) else Param(n)]
  {
    SegmentMeans(n, lit);
    var seg := ":" + n + mark;
    TwoSegments(lit, seg);
    assert "/" + lit + "/" + seg == "/" + lit + "/:" + n + mark;
    if mark == "" { assert seg == ":" + n; }
  }

  /** "/lit/:n?" matches exactly the literal alone, in any letter case, and the literal with one more
      non-empty piece, which is n. */
  lemma OptionalRouteMatches(lit: string, n: string, pieces: seq<string>, fold: char -> char)
    requires Bare(lit) && Wordlike(n)
    ensures var body := Body(pieces);
      var m := MatchParts(Parts("/" + lit + "/:" + n + "?"), pieces, fold);
      if |body| == 1 && SameLetters(lit, body[0], fold) then m == Some(map[])
      else if |body| == 2 && SameLetters(lit, body[0], fold) && body[1] != "" then m == Some(map[n := body[1]])
      else m == None
  {
    TwoPartPattern(lit, n, "?");
    LiteralThenPart(lit, Optional(n), pieces, fold);
    if pieces != [] && SameLetters(lit, pieces[0], fold) {
      NonEmptyFront(pieces);
      TailMatches(Optional(n), pieces[1..], fold);
    }
  }

  /** "/lit/:n" matches exactly the literal with one more non-empty piece. */
  lemma ParamRouteMatches(lit: string, n: string, pieces: seq<string>, fold: char -> char)
    requires Bare(lit) && Wordlike(n)
    ensures var body := Body(pieces);
      var m := MatchParts(Parts("/" + lit + "/:" + n), pieces, fold);
      if |body| == 2 && SameLetters(lit, body[0], fold) && body[1] != "" then m == Some(map[n := body[1]])
      else m == None
  {
    TwoPartPattern(lit, n, "");
    assert "/" + lit + "/:" + n + "" == "/" + lit + "/:" + n;
    LiteralThenPart(lit, Param(n), pieces, fold);
    if pieces != [] && SameLetters(lit, pieces[0], fold) {
      NonEmptyFront(pieces);
      TailMatches(Param(n), pieces[1..], fold);
    }
  }

  lemma LiteralThenPart(lit: string, p: Part, pieces: seq<string>, fold: char -> char)
    ensures MatchParts([Static(lit), p], pieces, fold) ==
      if pieces != [] && SameLetters(lit, pieces[0], fold) then MatchParts([p], pieces[1..], fold) else None
  {
    assert [Static(lit), p][1..] == [p];
  }

  lemma TailMatches(p: Part, rest: seq<string>, fold: char -> char)
    requires Named(p)
    ensures MatchParts([p], rest, fold) ==
      if |Body(rest)| == 1 && Body(rest)[0] != "" then Some(map[p.name := Body(rest)[0]])
      else if p.Optional? && Body(rest) == [] then Some(map[])
      else None
  {
    assert [p][1..] == [];
    if rest != [] && rest[0] != "" {
      NonEmptyFront(rest);
      assert Body(rest[1..]) == [] <==> |Body(rest)| == 1;
      assert MatchParts([], rest[1..], fold) == if |Body(rest)| == 1 then Some(map[]) else None;
    } else if |rest| > 1 {
      assert Body(rest)[0] == "";
    }
  }

  /** What the query part keeps of a key: the first pair that has a value for it. */
  lemma {:induction false} FirstIs(pairs: seq<(string, string)>, key: string, v: string)
    ensures First(ParseQuery(pairs), key) == Some(v) <==>
      exists i :: 0 <= i < |pairs| && pairs[i] == (key, v) && v != "" &&
        forall j :: 0 <= j < i ==> !HasValue(pairs[j], key)
  {
    if pairs != [] {
      var n := |pairs| - 1;
      var front := pairs[..n];
      assert front + [pairs[n]] == pairs;
      FirstIs(front, key, v);
      ParsedValuesFull(front);
      ParseStep(front, pairs[n].0, pairs[n].1);
      NoneIffNoValue(front, key);
      assert forall i :: 0 <= i < n ==> front[i] == pairs[i];
    }
  }

  predicate HasValue(pair: (string, string), key: string) { pair.0 == key && pair.1 != "" }

  lemma {:induction false} NoneIffNoValue(pairs: seq<(string, string)>, key: string)
    ensures First(ParseQuery(pairs), key).None? <==> forall j :: 0 <= j < |pairs| ==> !HasValue(pairs[j], key)
  {
    if pairs != [] {
      var n := |pairs| - 1;
      var front := pairs[..n];
      assert front + [pairs[n]] == pairs;
      NoneIffNoValue(front, key);
      ParsedValuesFull(front);
      ParseStep(front, pairs[n].0, pairs[n].1);
      assert forall i :: 0 <= i < n ==> front[i] == pairs[i];
    }
  }

  /** A pattern that names one parameter twice, or starts a name with a digit, raises. */
  lemma BadPatternsRaise(fold: char -> char)
    ensures Winner([Route("/:a/:a", [])], "/x", fold) == Failure("/:a/:a")
    ensures Winner([Route("/x/:1", [])], "/x", fold) == Failure("/x/:1")
  {
    TwiceNamed();
    DigitNamed();
    OneRoute(Route("/:a/:a", []), "/x", fold);
    OneRoute(Route("/x/:1", []), "/x", fold);
  }

  lemma OneRoute(route: Route, path: string, fold: char -> char)
    ensures var m := MatchParts(Parts(route.pattern), Pieces(path), fold);
      Winner([route], path, fold) ==
        if !Compiles(Parts(route.pattern)) then Failure(route.pattern)
        else if m.Some? then Success(Some(Hit(0, m.value)))
        else Success(None)
  {
    assert [route][0] == route;
    assert Find([route], 1, Pieces(path), fold) == Success(None);
  }

  lemma TwoParams(n: string)
    requires Wordlike(n)
    ensures Parts("/:" + n + "/:" + n) == [Param(n), Param(n)]
  {
    var seg := ":" + n;
    SegmentMeans(n, seg);
    TwoSegments(seg, seg);
    assert "/" + seg + "/" + seg == "/:" + n + "/:" + n;
  }

  lemma TwoSegments(a: string, b: string)
    requires a != "" && '/' !in a && b != "" && '/' !in b
    ensures Parts("/" + a + "/" + b) == [PartOf(a), PartOf(b)]
  {
    PartsAppend("", a);
    assert "" + "/" + a == "/" + a;
    PartsAppend("/" + a, b);
  }

  lemma TwiceNamed()
    ensures !Compiles(Parts("/:a/:a"))
  {
    TwoParams("a");
    assert "/:" + "a" + "/:" + "a" == "/:a/:a";
    var twice := Parts("/:a/:a");
    assert Named(twice[0]) && Named(twice[1]) && twice[0].name == twice[1].name;
  }

  /** A path that is only the literal wins the route whose parameter may be absent, with no params. */
  lemma OptionalMayBeAbsent(lit: string, n: string, keys: seq<string>, fold: char -> char)
    requires Bare(lit) && Wordlike(n) && !('0' <= n[0] <= '9')
    ensures Winner([Route("/" + lit + "/:" + n + "?", keys)], "/" + lit, fold) == Success(Some(Hit(0, map[])))
    ensures Winner([Route("/" + lit + "/:" + n, keys)], "/" + lit, fold) == Success(None)
  {
    SplitPrefix(lit, "");
    assert ("/" + lit)[1..] == lit;
    TwoPartPattern(lit, n, "?");
    TwoPartPattern(lit, n, "");
    assert "/" + lit + "/:" + n + "" == "/" + lit + "/:" + n;
    OptionalRouteMatches(lit, n, [lit], fold);
    ParamRouteMatches(lit, n, [lit], fold);
    OneRoute(Route("/" + lit + "/:" + n + "?", keys), "/" + lit, fold);
    OneRoute(Route("/" + lit + "/:" + n, keys), "/" + lit, fold);
  }

  lemma DigitNamed()
    ensures !Compiles(Parts("/x/:1"))
  {
    TwoPartPattern("x", "1", "");
    assert "/" + "x" + "/:" + "1" + "" == "/x/:1";
    var digit := Parts("/x/:1");
    assert Named(digit[1]) && digit[1].name == "1";
  }
}
