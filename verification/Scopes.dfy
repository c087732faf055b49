/** Write scopes: what they cover, the sibling scope of a parallel leg, and anchor containment. */
module Scopes {
  import opened Prelude

  predicate NoChar(s: string, c: char) {
    forall i :: 0 <= i < |s| ==> s[i] != c
  }

  /** Position of the last `c`, or -1. */
  function LastOf(s: string, c: char): (k: int)
    ensures -1 <= k < |s|
    ensures k >= 0 ==> s[k] == c
    ensures forall i :: k < i < |s| ==> s[i] != c
  {
    if s == "" then -1
    else if s[|s| - 1] == c then |s| - 1
    else LastOf(s[..|s| - 1], c)
  }

  /** The segments between slashes; one empty segment for the empty string. */
  function Segments(s: string): (segments: seq<string>)
    ensures segments != []
  {
    var k := LastOf(s, '/');
    if k < 0 then [s] else Segments(s[..k]) + [s[k + 1..]]
  }

  const TREE := "/**"

  predicate IsTree(scope: string) {
    |scope| >= 3 && scope[|scope| - 3..] == TREE
  }

  /** Everything but the tree mark; for a concrete scope, the scope. */
  function Stem(scope: string): string {
    if IsTree(scope) then scope[..|scope| - 3] else scope
  }

  predicate Safe(scope: string) {
    scope != "" && scope[0] != '/' && ".." !in Segments(scope)
  }

  datatype ScopeError = UnsafeScope

  function ScopeRoot(scope: string): Result<string, ScopeError> {
    if Safe(scope) then Ok(Stem(scope)) else Err(UnsafeScope)
  }

  predicate Under(a: string, b: string) {
    |a| > |b| && a[..|b|] == b && a[|b|] == '/'
  }

  predicate RootsOverlap(a: string, b: string) {
    a == b || Under(a, b) || Under(b, a)
  }

  function Overlap(a: string, b: string): Result<bool, ScopeError> {
    match (ScopeRoot(a), ScopeRoot(b))
    case (Ok(x), Ok(y)) => Ok(RootsOverlap(x, y))
    case _ => Err(UnsafeScope)
  }

  /* ---- What overlap means ---- */

  /** A path is the root itself or lies below it. */
  predicate Covers(root: string, path: string) {
    path == root || Under(path, root)
  }

  /** Two roots overlap exactly if some path lies in both. */
  lemma OverlapMeansShared(a: string, b: string)
    ensures RootsOverlap(a, b) <==> exists path :: Covers(a, path) && Covers(b, path)
  {
    if RootsOverlap(a, b) {
      var path := if |a| >= |b| then a else b;
      assert Covers(a, path) && Covers(b, path);
    }
    if path :| Covers(a, path) && Covers(b, path) {
      assert path[..|a|] == a && path[..|b|] == b;
      if |a| < |b| {
        assert b[..|a|] == path[..|b|][..|a|] == a && b[|a|] == path[|a|];
      } else if |b| < |a| {
        assert a[..|b|] == path[..|a|][..|b|] == b && a[|b|] == path[|b|];
      }
    }
  }

  /* ---- Parallel legs ---- */

  predicate ValidSuffix(suffix: string) {
    suffix != "" && forall i :: 0 <= i < |suffix| ==> 'a' <= suffix[i] <= 'z' || '0' <= suffix[i] <= '9' || suffix[i] == '-'
  }

  /** The scope or artifact path of one extra leg. */
  function ParallelPath(path: string, suffix: string): string {
    if IsTree(path) && NoChar(Stem(path), '*') then Stem(path) + "-" + suffix + TREE
    else
      var slash := LastOf(path, '/');
      var head, tail := path[..slash + 1], path[slash + 1..];
      var dot := LastOf(tail, '.');
      if dot < 0 then path + "-" + suffix
      else head + tail[..dot] + "." + suffix + "." + tail[dot + 1..]
  }

  /** No wildcard but a trailing tree mark. */
  predicate Plain(scope: string) {
    NoChar(Stem(scope), '*')
  }

  /** Where the root of a leg differs from its base: something without slashes stands between
      `front` and `back`. */
  datatype Cut = Cut(front: string, mark: char, back: string)

  function Insert(cut: Cut, suffix: string): string {
    cut.front + ([cut.mark] + suffix) + cut.back
  }

  lemma NoCharJoin(a: string, b: string, c: char)
    ensures NoChar(a + b, c) <==> NoChar(a, c) && NoChar(b, c)
  {
    assert forall i :: 0 <= i < |a| ==> (a + b)[i] == a[i];
    assert forall i :: 0 <= i < |b| ==> (a + b)[|a| + i] == b[i];
  }

  lemma NoStarNoTree(s: string)
    requires NoChar(s, '*')
    ensures !IsTree(s)
  {
    if |s| >= 3 { assert s[|s| - 3..][2] == s[|s| - 1] && TREE[2] == '*'; }
  }

  lemma TreeStem(stem: string)
    ensures IsTree(stem + TREE) && Stem(stem + TREE) == stem
  {
    var s := stem + TREE;
    assert s[|s| - 3..] == TREE && s[..|s| - 3] == stem;
  }

  predicate Leg(path: string, suffix: string, cut: Cut) {
    Stem(ParallelPath(path, suffix)) == Insert(cut, suffix)
  }

  lemma LegOfTree(path: string, suffix: string)
    requires IsTree(path) && Plain(path)
    ensures Leg(path, suffix, Cut(Stem(path), '-', ""))
  {
    TreeStem(Stem(path) + "-" + suffix);
    assert Stem(path) + "-" + suffix == Insert(Cut(Stem(path), '-', ""), suffix);
  }

  /** Legs of concrete scopes carry no tree mark. */
  lemma InsertedStem(cut: Cut, suffix: string)
    requires NoChar(cut.front + cut.back, '*') && cut.mark != '*' && ValidSuffix(suffix)
    ensures Stem(Insert(cut, suffix)) == Insert(cut, suffix)
  {
    NoCharJoin(cut.front, cut.back, '*');
    NoCharJoin([cut.mark], suffix, '*');
    NoCharJoin(cut.front, [cut.mark] + suffix, '*');
    NoCharJoin(cut.front + ([cut.mark] + suffix), cut.back, '*');
    NoStarNoTree(Insert(cut, suffix));
  }

  lemma InsertBehind(front: string, suffix: string)
    ensures front + "-" + suffix == Insert(Cut(front, '-', ""), suffix)
  {
  }

  lemma InsertBefore(front: string, suffix: string, rest: string)
    ensures front + "." + suffix + "." + rest == Insert(Cut(front, '.', "." + rest), suffix)
  {
    var a, b := front + "." + suffix, "." + rest;
    assert front + ("." + suffix) == a;
    assert a + "." + rest == a + b;
  }

  lemma LegOfName(path: string, suffix: string)
    requires !IsTree(path) && LastOf(path[LastOf(path, '/') + 1..], '.') < 0
    ensures ParallelPath(path, suffix) == Insert(Cut(path, '-', ""), suffix)
  {
    InsertBehind(path, suffix);
  }

  /** A path taken apart at its last slash and the last dot behind it. */
  predicate FileParts(path: string, head: string, name: string, ext: string) {
    var slash := LastOf(path, '/');
    var tail := path[slash + 1..];
    var dot := LastOf(tail, '.');
    dot >= 0 && head == path[..slash + 1] && name == tail[..dot] && ext == tail[dot + 1..]
  }

  lemma LegOfFile(path: string, suffix: string, head: string, name: string, ext: string)
    requires !IsTree(path) && FileParts(path, head, name, ext)
    ensures ParallelPath(path, suffix) == head + name + "." + suffix + "." + ext
  {
  }

  /** Every scope has one place at which all its legs insert their suffix. */
  lemma CutOf(path: string) returns (cut: Cut)
    requires Plain(path)
    ensures Stem(path) == cut.front + cut.back
    ensures NoChar(cut.back, '/') && cut.mark in {'-', '.'}
    ensures forall suffix :: ValidSuffix(suffix) ==> Leg(path, suffix, cut)
  {
    if IsTree(path) {
      cut := Cut(Stem(path), '-', "");
      forall suffix | ValidSuffix(suffix) ensures Leg(path, suffix, cut) { LegOfTree(path, suffix); }
    } else {
      cut := ConcreteCut(path);
      forall suffix | ValidSuffix(suffix) ensures Leg(path, suffix, cut) { InsertedStem(cut, suffix); }
    }
  }

  lemma ConcreteCut(path: string) returns (cut: Cut)
    requires !IsTree(path)
    ensures path == cut.front + cut.back
    ensures NoChar(cut.back, '/') && cut.mark in {'-', '.'}
    ensures forall suffix :: ParallelPath(path, suffix) == Insert(cut, suffix)
  {
    var slash := LastOf(path, '/');
    var dot := LastOf(path[slash + 1..], '.');
    if dot < 0 { cut := NameCut(path); } else { cut := FileCut(path, slash, dot); }
  }

  lemma NameCut(path: string) returns (cut: Cut)
    requires !IsTree(path) && LastOf(path[LastOf(path, '/') + 1..], '.') < 0
    ensures path == cut.front + cut.back
    ensures NoChar(cut.back, '/') && cut.mark in {'-', '.'}
    ensures forall suffix :: ParallelPath(path, suffix) == Insert(cut, suffix)
  {
    cut := Cut(path, '-', "");
    forall suffix ensures ParallelPath(path, suffix) == Insert(cut, suffix) { LegOfName(path, suffix); }
  }

  lemma FileCut(path: string, slash: int, dot: int) returns (cut: Cut)
    requires !IsTree(path) && slash == LastOf(path, '/') && dot == LastOf(path[slash + 1..], '.') && dot >= 0
    ensures path == cut.front + cut.back
    ensures NoChar(cut.back, '/') && cut.mark in {'-', '.'}
    ensures forall suffix :: ParallelPath(path, suffix) == Insert(cut, suffix)
  {
    var head, name, ext := path[..slash + 1], path[slash + 1..][..dot], path[slash + 1..][dot + 1..];
    cut := Cut(head + name, '.', "." + ext);
    Reassemble(path, slash, dot);
    BackHasNoSlash(path, slash, dot);
    forall suffix ensures ParallelPath(path, suffix) == Insert(cut, suffix) {
      LegOfFile(path, suffix, head, name, ext);
      InsertBefore(head + name, suffix, ext);
    }
  }

  lemma BackHasNoSlash(path: string, slash: int, dot: nat)
    requires slash == LastOf(path, '/') && dot < |path| - slash - 1
    ensures NoChar("." + path[slash + 1..][dot + 1..], '/')
  {
    var rest := path[slash + 1..][dot + 1..];
    assert forall i :: 0 <= i < |rest| ==> rest[i] == path[slash + dot + 2 + i];
    NoCharJoin(".", rest, '/');
  }

  lemma Reassemble(path: string, slash: int, dot: int)
    requires -1 <= slash < |path| && 0 <= dot < |path| - slash - 1 && path[slash + 1..][dot] == '.'
    ensures var tail := path[slash + 1..];
            path == path[..slash + 1] + tail[..dot] + ("." + tail[dot + 1..])
  {
    var tail := path[slash + 1..];
    assert tail == tail[..dot] + ("." + tail[dot + 1..]);
    assert path == path[..slash + 1] + tail;
  }

  /** Two different slash-free insertions at one place give roots that do not overlap. */
  lemma InsertionsDisjoint(front: string, a: string, b: string, back: string)
    requires NoChar(a, '/') && NoChar(b, '/') && NoChar(back, '/') && a != b
    ensures !RootsOverlap(front + a + back, front + b + back)
  {
    var x, y := front + a + back, front + b + back;
    if |a| == |b| { assert x[|front|..|front| + |a|] == a && y[|front|..|front| + |b|] == b; }
    assert forall i :: |front| <= i < |x| ==> x[i] == (a + back)[i - |front|];
    assert forall i :: |front| <= i < |y| ==> y[i] == (b + back)[i - |front|];
  }

  lemma CutLegsDisjoint(cut: Cut, s: string, t: string)
    requires NoChar(cut.back, '/') && cut.mark != '/' && ValidSuffix(s) && ValidSuffix(t)
    ensures !RootsOverlap(cut.front + cut.back, Insert(cut, s))
    ensures s != t ==> !RootsOverlap(Insert(cut, s), Insert(cut, t))
  {
    assert cut.front + "" + cut.back == cut.front + cut.back;
    InsertionsDisjoint(cut.front, "", [cut.mark] + s, cut.back);
    if s != t {
      assert ([cut.mark] + s)[1..] == s && ([cut.mark] + t)[1..] == t;
      InsertionsDisjoint(cut.front, [cut.mark] + s, [cut.mark] + t, cut.back);
    }
  }

  /** A leg overlaps neither its base nor a leg with another suffix. */
  lemma LegsDisjoint(path: string, s: string, t: string)
    requires Plain(path) && ValidSuffix(s) && ValidSuffix(t)
    ensures !RootsOverlap(Stem(path), Stem(ParallelPath(path, s)))
    ensures s != t ==> !RootsOverlap(Stem(ParallelPath(path, s)), Stem(ParallelPath(path, t)))
  {
    var cut := CutOf(path);
    assert Leg(path, s, cut) && Leg(path, t, cut);
    CutLegsDisjoint(cut, s, t);
  }

  /** Different scopes of one node need not stay apart. */
  lemma SiblingScopesMayCollide()
    ensures !RootsOverlap(Stem("a/**"), Stem("a-x/**"))
    ensures RootsOverlap(Stem(ParallelPath("a/**", "x")), Stem("a-x/**"))
  {
    assert Stem("a/**") == "a" && Stem("a-x/**") == "a-x";
    assert "a/**"[..1] == "a";
    assert ParallelPath("a/**", "x") == "a-x/**";
  }

  /* ---- Segments of a leg ---- */

  lemma SameLastSlash(front: string, more: string)
    requires NoChar(more, '/')
    ensures LastOf(front + more, '/') == LastOf(front, '/')
  {
    var s := front + more;
    var k := LastOf(s, '/');
    var j := LastOf(front, '/');
    assert forall i :: |front| <= i < |s| ==> s[i] == more[i - |front|];
    if j >= 0 { assert s[j] == '/'; }
    if k >= 0 { assert k < |front| && front[k] == '/'; }
  }

  /** Text without slashes only extends the last segment. */
  lemma TailExtendsLast(front: string, more: string)
    requires NoChar(more, '/')
    ensures var s, f := Segments(front + more), Segments(front);
            |s| == |f| && s[..|s| - 1] == f[..|f| - 1] && s[|s| - 1] == f[|f| - 1] + more
  {
    SameLastSlash(front, more);
    var k := LastOf(front, '/');
    if k >= 0 { SplitLonger(front, more, k); } else { SegmentsAt(front); SegmentsAt(front + more); }
  }

  lemma SegmentsAt(s: string)
    ensures var k := LastOf(s, '/'); Segments(s) == if k < 0 then [s] else Segments(s[..k]) + [s[k + 1..]]
  {
  }

  lemma SplitLonger(front: string, more: string, k: nat)
    requires LastOf(front, '/') == k == LastOf(front + more, '/')
    ensures var s, f := Segments(front + more), Segments(front);
            |s| == |f| && s[..|s| - 1] == f[..|f| - 1] && s[|s| - 1] == f[|f| - 1] + more
  {
    var s := front + more;
    assert s[..k] == front[..k] && s[k + 1..] == front[k + 1..] + more;
    SegmentsAt(front);
    SegmentsAt(s);
    var before := Segments(front[..k]);
    assert (before + [s[k + 1..]])[..|before|] == before == (before + [front[k + 1..]])[..|before|];
  }

  lemma CutSegments(cut: Cut, suffix: string)
    requires NoChar(cut.back, '/') && cut.mark != '/' && ValidSuffix(suffix)
    ensures var base, leg := Segments(cut.front + cut.back), Segments(Insert(cut, suffix));
            var front := Segments(cut.front);
            var n := |front| - 1;
            && |base| == |leg| == n + 1
            && base[..n] == leg[..n] == front[..n]
            && base[n] == front[n] + cut.back && leg[n] == front[n] + ([cut.mark] + suffix + cut.back)
  {
    var inserted := [cut.mark] + suffix + cut.back;
    NoCharJoin([cut.mark], suffix, '/');
    NoCharJoin([cut.mark] + suffix, cut.back, '/');
    TailExtendsLast(cut.front, cut.back);
    TailExtendsLast(cut.front, inserted);
    InsertAssociates(cut, suffix);
  }

  lemma InsertAssociates(cut: Cut, suffix: string)
    ensures Insert(cut, suffix) == cut.front + ([cut.mark] + suffix + cut.back)
  {
  }

  /** A leg has its base's segments except for the last. */
  lemma LegSegments(path: string, suffix: string)
    requires Plain(path) && ValidSuffix(suffix)
    ensures var base, leg := Segments(Stem(path)), Segments(Stem(ParallelPath(path, suffix)));
            |base| == |leg| && base[..|base| - 1] == leg[..|leg| - 1] && base[|base| - 1] != leg[|leg| - 1] && leg[|leg| - 1] != ".."
  {
    var cut := CutOf(path);
    assert Leg(path, suffix, cut);
    CutSegments(cut, suffix);
    var front := Segments(cut.front);
    LastDiffers(front[|front| - 1], cut, suffix);
  }

  lemma LastDiffers(last: string, cut: Cut, suffix: string)
    requires ValidSuffix(suffix)
    ensures var leg := last + ([cut.mark] + suffix + cut.back); last + cut.back != leg && leg != ".."
  {
    var leg := last + ([cut.mark] + suffix + cut.back);
    assert |leg| > |last + cut.back|;
    assert leg[|last| + 1] == suffix[0];
  }

  /** A leg of a safe scope is safe. */
  lemma LegSafe(path: string, suffix: string)
    requires Plain(path) && Safe(path) && ValidSuffix(suffix)
    ensures Safe(ParallelPath(path, suffix))
  {
    var leg := ParallelPath(path, suffix);
    LegSegments(path, suffix);
    StemSegments(path);
    StemSegments(leg);
    NoneAdded(Segments(Stem(path)), Segments(Stem(leg)));
    FirstChar(path, suffix);
  }

  lemma NoneAdded(base: seq<string>, leg: seq<string>)
    requires |base| == |leg| > 0 && base[..|base| - 1] == leg[..|leg| - 1]
    requires ".." !in base && leg[|leg| - 1] != ".."
    ensures ".." !in leg
  {
    forall i | 0 <= i < |leg| ensures leg[i] != ".." {
      assert i < |leg| - 1 ==> leg[i] == leg[..|leg| - 1][i] == base[i] && base[i] in base;
    }
  }

  lemma FirstChar(path: string, suffix: string)
    requires Safe(path) && ValidSuffix(suffix)
    ensures ParallelPath(path, suffix) != "" && ParallelPath(path, suffix)[0] != '/'
  {
    var slash := LastOf(path, '/');
    assert slash != 0;
  }

  lemma StemSegments(scope: string)
    ensures ".." in Segments(scope) <==> ".." in Segments(Stem(scope))
  {
    if IsTree(scope) {
      var k := |scope| - 3;
      assert scope[k] == scope[k..][0] == '/' && scope[k + 1] == scope[k..][1] && scope[k + 2] == scope[k..][2];
      assert LastOf(scope, '/') == k;
      assert scope[k + 1..] == "**";
    }
  }

  /* ---- Anchors ---- */

  predicate Lower(c: char) {
    'a' <= c <= 'z'
  }

  /** `<letters>`; the pattern's end mark also lets one final line feed pass. */
  predicate IsWildcard(segment: string) {
    Bracketed(if segment != "" && segment[|segment| - 1] == '\n' then segment[..|segment| - 1] else segment)
  }

  predicate Bracketed(body: string) {
    |body| >= 3 && body[0] == '<' && body[|body| - 1] == '>' && forall i :: 0 < i < |body| - 1 ==> Lower(body[i])
  }

  predicate SegmentMatches(segment: string, anchor: string) {
    if IsWildcard(anchor) then !(anchor == "<component>" && segment != "" && segment[0] == '_')
    else segment == anchor
  }

  /** The segments left over when `segments` start like `pattern`. */
  function MatchSegments(segments: seq<string>, pattern: seq<string>): Option<seq<string>> {
    if |segments| < |pattern| then None
    else if forall i :: 0 <= i < |pattern| ==> SegmentMatches(segments[i], pattern[i]) then Some(segments[|pattern|..])
    else None
  }

  function AnchorMatch(root: string, anchor: string): Option<seq<string>> {
    MatchSegments(Segments(root), Segments(anchor))
  }

  lemma MatchIgnoresLast(base: seq<string>, leg: seq<string>, pattern: seq<string>)
    requires |base| == |leg| > 0 && base[..|base| - 1] == leg[..|leg| - 1] && |pattern| < |base|
    ensures MatchSegments(base, pattern).Some? <==> MatchSegments(leg, pattern).Some?
  {
    forall i | 0 <= i < |pattern| ensures base[i] == leg[i] {
      assert base[i] == base[..|base| - 1][i] && leg[i] == leg[..|leg| - 1][i];
    }
  }

  /** An anchor shorter than the scope matches a leg exactly when it matches the base, with as
      many segments left; so a leg stays inside the cycle of its base. */
  lemma LegStaysInAnchor(path: string, suffix: string, anchor: string)
    requires Plain(path) && ValidSuffix(suffix)
    requires |Segments(anchor)| < |Segments(Stem(path))|
    ensures var base, leg := AnchorMatch(Stem(path), anchor), AnchorMatch(Stem(ParallelPath(path, suffix)), anchor);
            && (base.Some? <==> leg.Some?)
            && (base.Some? ==> |base.value| == |leg.value| > 0)
  {
    LegSegments(path, suffix);
    MatchIgnoresLast(Segments(Stem(path)), Segments(Stem(ParallelPath(path, suffix))), Segments(anchor));
  }

  lemma LiteralLastFails(base: seq<string>, leg: seq<string>, pattern: seq<string>)
    requires |base| == |leg| == |pattern| > 0 && base[|base| - 1] != leg[|leg| - 1]
    requires MatchSegments(base, pattern).Some? && !IsWildcard(pattern[|pattern| - 1])
    ensures MatchSegments(leg, pattern).None?
  {
    assert SegmentMatches(base[|base| - 1], pattern[|pattern| - 1]);
  }

  /** With as many segments as the scope, an anchor that ends in a literal loses every leg. */
  lemma LegLeavesExactAnchor(path: string, suffix: string, anchor: string)
    requires Plain(path) && ValidSuffix(suffix)
    requires |Segments(anchor)| == |Segments(Stem(path))| && AnchorMatch(Stem(path), anchor).Some?
    requires !IsWildcard(Segments(anchor)[|Segments(anchor)| - 1])
    ensures AnchorMatch(Stem(ParallelPath(path, suffix)), anchor).None?
  {
    LegSegments(path, suffix);
    LiteralLastFails(Segments(Stem(path)), Segments(Stem(ParallelPath(path, suffix))), Segments(anchor));
  }
}
