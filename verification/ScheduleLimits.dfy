/** The pairwise scope check is exactly what order independence takes, and reads matter as well. */
module ScheduleLimits {
  import opened Prelude
  import opened Graph
  import opened Scopes
  import opened Schedule

  /* ---- Orders exist ---- */

  /** A node of the set that depends on no other node of the set. */
  lemma {:induction false} Minimal<T(!new)>(g: Graph<T>, s: set<T>, x: T) returns (m: T)
    requires Closed(g) && Acyclic(g) && x in s
    ensures m in s && forall y :: y in s ==> !Reaches(g, m, y)
    decreases |BelowSet(g, x)|
  {
    if y :| y in s && Reaches(g, x, y) {
      BelowShrinks(g, x, y);
      m := Minimal(g, s, y);
    } else {
      m := x;
    }
  }

  predicate ListsSet<T(==)>(order: seq<T>, s: set<T>) {
    multiset(order) == multiset(s)
  }

  /** The members of a set in an order that respects the dependencies. */
  lemma {:induction false} SomeOrder<T(!new)>(g: Graph<T>, s: set<T>) returns (order: seq<T>)
    requires Closed(g) && Acyclic(g)
    ensures Respects(g, order) && ListsSet(order, s)
    decreases |s|
  {
    if s == {} {
      order := [];
    } else {
      var x :| x in s;
      var m := Minimal(g, s, x);
      var rest := SomeOrder(g, s - {m});
      order := [m] + rest;
      forall i | 0 <= i < |rest| ensures rest[i] in s - {m} { assert rest[i] in multiset(rest); }
    }
  }

  lemma {:induction false} RunAppend<T(!new)>(act: (T, Tree) -> Tree, a: seq<T>, b: seq<T>, t: Tree)
    ensures RunAll(act, a + b, t) == RunAll(act, b, RunAll(act, a, t))
  {
    if a == [] {
      assert [] + b == b;
    } else {
      assert (a + b)[1..] == a[1..] + b;
      RunAppend(act, a[1..], b, act(a[0], t));
    }
  }

  lemma {:induction false} RunIdle<T(!new)>(act: (T, Tree) -> Tree, order: seq<T>, t: Tree)
    requires forall i :: 0 <= i < |order| ==> act(order[i], t) == t
    ensures RunAll(act, order, t) == t
  {
    if order != [] { RunIdle(act, order[1..], t); }
  }

  /** Two lists follow one another when nothing in the first depends on the second. */
  lemma RespectsJoin<T(!new)>(g: Graph<T>, a: seq<T>, b: seq<T>)
    requires Respects(g, a) && Respects(g, b)
    requires forall i, j :: 0 <= i < |a| && 0 <= j < |b| ==> a[i] != b[j] && !Reaches(g, a[i], b[j])
    ensures Respects(g, a + b)
  {
    var c := a + b;
    forall i, j | 0 <= i < j < |c| ensures c[i] != c[j] && !Reaches(g, c[i], c[j]) {
      if j < |a| {
        assert c[i] == a[i] && c[j] == a[j];
      } else if i < |a| {
        assert c[i] == a[i] && c[j] == b[j - |a|];
      } else {
        assert c[i] == b[i - |a|] && c[j] == b[j - |a|];
      }
    }
  }

  /** Whatever order the two nodes are run in, the rest can be scheduled around them. */
  lemma OrderAround<T(!new)>(g: Graph<T>, a: T, b: T) returns (before: seq<T>, after: seq<T>)
    requires Closed(g) && Acyclic(g) && a in g && b in g && a != b && !Ordered(g, a, b)
    ensures a !in before && b !in before && a !in after && b !in after
    ensures Respects(g, before + [a, b] + after) && Respects(g, before + [b, a] + after)
    ensures ListsSet(before + [a, b] + after, g.Keys) && ListsSet(before + [b, a] + after, g.Keys)
  {
    var low := BelowSet(g, a) + BelowSet(g, b);
    before := SomeOrder(g, low);
    after := SomeOrder(g, g.Keys - low - {a, b});
    InSet(before, low);
    InSet(after, g.Keys - low - {a, b});
    Sandwich(g, a, b, before, after);
    Sandwich(g, b, a, before, after);
  }

  lemma InSet<T>(order: seq<T>, s: set<T>)
    requires ListsSet(order, s)
    ensures forall i :: 0 <= i < |order| ==> order[i] in s
  {
    forall i | 0 <= i < |order| ensures order[i] in s { assert order[i] in multiset(order); }
  }

  lemma Sandwich<T(!new)>(g: Graph<T>, a: T, b: T, before: seq<T>, after: seq<T>)
    requires Closed(g) && Acyclic(g) && a in g && b in g && a != b && !Ordered(g, a, b)
    requires var low := BelowSet(g, a) + BelowSet(g, b);
             ListsSet(before, low) && ListsSet(after, g.Keys - low - {a, b})
    requires Respects(g, before) && Respects(g, after)
    ensures Respects(g, before + [a, b] + after) && ListsSet(before + [a, b] + after, g.Keys)
  {
    var low := BelowSet(g, a) + BelowSet(g, b);
    InSet(before, low);
    InSet(after, g.Keys - low - {a, b});
    forall i | 0 <= i < |before| ensures !Reaches(g, before[i], a) && !Reaches(g, before[i], b) {
      LowReachesNeither(g, a, b, before[i]);
    }
    RespectsJoin(g, before, [a, b]);
    var front := before + [a, b];
    forall i, j | 0 <= i < |front| && 0 <= j < |after| ensures front[i] != after[j] && !Reaches(g, front[i], after[j]) {
      LowStays(g, a, b, front[i], after[j]);
    }
    RespectsJoin(g, front, after);
    assert multiset(front + after) == multiset(before) + multiset{a, b} + multiset(after);
    assert multiset(g.Keys) == multiset(low) + multiset{a, b} + multiset(g.Keys - low - {a, b});
  }

  lemma LowReachesNeither<T(!new)>(g: Graph<T>, a: T, b: T, x: T)
    requires Acyclic(g) && !Ordered(g, a, b) && x in BelowSet(g, a) + BelowSet(g, b)
    ensures x != a && x != b && !Reaches(g, x, a) && !Reaches(g, x, b)
  {
    if Reaches(g, x, a) {
      if Reaches(g, a, x) { Transitive(g, x, a, x); } else { Transitive(g, b, x, a); }
    }
    if Reaches(g, x, b) {
      if Reaches(g, b, x) { Transitive(g, x, b, x); } else { Transitive(g, a, x, b); }
    }
  }

  lemma LowStays<T(!new)>(g: Graph<T>, a: T, b: T, x: T, y: T)
    requires Closed(g) && a in g && b in g && y in g && y != a && y != b
    requires y !in BelowSet(g, a) && y !in BelowSet(g, b)
    requires x == a || x == b || x in BelowSet(g, a) || x in BelowSet(g, b)
    ensures x != y && !Reaches(g, x, y)
  {
    if Reaches(g, x, y) {
      if x in BelowSet(g, a) { Transitive(g, a, x, y); }
      if x in BelowSet(g, b) { Transitive(g, b, x, y); }
    }
  }

  /* ---- The scope check is necessary ---- */

  /** Every behaviour that keeps to its scopes and does not race is independent of the order. */
  ghost predicate Deterministic<T(!new)>(w: Workflow<T>) {
    forall act: (T, Tree) -> Tree, looks: (T, string) -> bool, first: seq<T>, second: seq<T>, t: Tree ::
      Confined(w, act, looks) && RaceFree(w, looks) && Respects(w.deps, first) && Respects(w.deps, second)
      && ListsSet(first, w.deps.Keys) && ListsSet(second, w.deps.Keys) ==>
        RunAll(act, first, t) == RunAll(act, second, t)
  }

  /** The two nodes write their own mark to one path; no other node does anything. */
  ghost function Marker<T(!new)>(a: T, b: T, path: string): (T, Tree) -> Tree {
    (x: T, t: Tree) => if x == a then t[path := "first"] else if x == b then t[path := "second"] else t
  }

  lemma MarkerConfined<T(!new)>(w: Workflow<T>, looks: (T, string) -> bool, a: T, b: T, path: string)
    requires CoveredBy(ScopesOf(w, a), path) && CoveredBy(ScopesOf(w, b), path)
    ensures Confined(w, Marker(a, b, path), looks)
  {
  }

  lemma RunTwo<T(!new)>(act: (T, Tree) -> Tree, x: T, y: T, t: Tree)
    ensures RunAll(act, [x, y], t) == act(y, act(x, t))
  {
    assert [x, y] == [x] + [y] && [y] == [y] + [];
    RunFirst(act, x, [y], t);
    RunFirst(act, y, [], act(x, t));
  }

  lemma MarkersRun<T(!new)>(a: T, b: T, x: T, y: T, path: string, before: seq<T>, after: seq<T>, t: Tree)
    requires a != b && ((x == a && y == b) || (x == b && y == a))
    requires a !in before && b !in before && a !in after && b !in after
    ensures RunAll(Marker(a, b, path), before + [x, y] + after, t) == Marker(a, b, path)(y, t)
  {
    var act := Marker(a, b, path);
    RunAppend(act, before + [x, y], after, t);
    RunAppend(act, before, [x, y], t);
    RunIdle(act, before, t);
    RunTwo(act, x, y, t);
    assert t[path := "first"][path := "second"] == t[path := "second"];
    assert t[path := "second"][path := "first"] == t[path := "first"];
    RunIdle(act, after, act(y, t));
  }

  lemma SharedPath(a: seq<string>, b: seq<string>) returns (path: string)
    requires ScopesOverlap(a, b)
    ensures CoveredBy(a, path) && CoveredBy(b, path)
  {
    var i, j :| 0 <= i < |a| && 0 <= j < |b| && RootsOverlap(Stem(a[i]), Stem(b[j]));
    OverlapMeansShared(Stem(a[i]), Stem(b[j]));
    path :| Covers(Stem(a[i]), path) && Covers(Stem(b[j]), path);
  }

  lemma OverlapBreaksOrder<T(!new)>(w: Workflow<T>, a: T, b: T)
    requires WellFormed(w) && a in w.deps && b in w.deps && a != b
    requires !Ordered(w.deps, a, b) && ScopesOverlap(ScopesOf(w, a), ScopesOf(w, b))
    ensures !Deterministic(w)
  {
    var path := SharedPath(ScopesOf(w, a), ScopesOf(w, b));
    var before, after := OrderAround(w.deps, a, b);
    var act := Marker(a, b, path);
    MarkerConfined(w, (x: T, p: string) => false, a, b, path);
    MarkersDiffer(a, b, path, before, after);
    OneDifferenceSuffices(w, act, before + [a, b] + after, before + [b, a] + after, map[]);
  }

  lemma OneDifferenceSuffices<T(!new)>(w: Workflow<T>, act: (T, Tree) -> Tree, first: seq<T>, second: seq<T>, t: Tree)
    requires Confined(w, act, (x: T, p: string) => false)
    requires Respects(w.deps, first) && Respects(w.deps, second)
    requires ListsSet(first, w.deps.Keys) && ListsSet(second, w.deps.Keys)
    requires RunAll(act, first, t) != RunAll(act, second, t)
    ensures !Deterministic(w)
  {
    var looks := (x: T, p: string) => false;
    assert RaceFree(w, looks);
  }

  /** The validator accepts exactly the acyclic workflows whose outcome no order can change. */
  lemma AcceptedIsDeterministic<T(!new)>(w: Workflow<T>)
    requires WellFormed(w)
    ensures Serialized(w) <==> Deterministic(w)
  {
    if Serialized(w) {
      forall act: (T, Tree) -> Tree, looks: (T, string) -> bool, first: seq<T>, second: seq<T>, t: Tree |
        Confined(w, act, looks) && RaceFree(w, looks) && Respects(w.deps, first) && Respects(w.deps, second)
        && ListsSet(first, w.deps.Keys) && ListsSet(second, w.deps.Keys)
        ensures RunAll(act, first, t) == RunAll(act, second, t)
      {
        InSet(second, w.deps.Keys);
        ScheduleIndependence(w, act, looks, first, second, t);
      }
    } else {
      var a, b :| a in w.deps && b in w.deps && a != b && ScopesOverlap(ScopesOf(w, a), ScopesOf(w, b)) && !Ordered(w.deps, a, b);
      OverlapBreaksOrder(w, a, b);
    }
  }

  /* ---- Reads matter, too ---- */

  /** Every node may write somewhere, as the validator demands. */
  ghost predicate AllWrite<T(!new)>(w: Workflow<T>) {
    forall a :: a in w.deps ==> ScopesOf(w, a) != []
  }

  /** Whatever the nodes do within their scopes and those reads, no order of the run changes the outcome. */
  ghost predicate OrderIrrelevant<T(!new)>(w: Workflow<T>, looks: (T, string) -> bool) {
    forall act: (T, Tree) -> Tree, first: seq<T>, second: seq<T>, t: Tree ::
      Confined(w, act, looks) && Respects(w.deps, first) && Respects(w.deps, second)
      && ListsSet(first, w.deps.Keys) && ListsSet(second, w.deps.Keys) ==>
        RunAll(act, first, t) == RunAll(act, second, t)
  }

  function OwnPath<T(!new)>(w: Workflow<T>, a: T): string
    requires ScopesOf(w, a) != []
  {
    Stem(ScopesOf(w, a)[0])
  }

  lemma OwnPathCovered<T(!new)>(w: Workflow<T>, a: T)
    requires ScopesOf(w, a) != []
    ensures CoveredBy(ScopesOf(w, a), OwnPath(w, a))
  {
    assert Covers(Stem(ScopesOf(w, a)[0]), OwnPath(w, a));
  }

  /** `b` writes `path`; `a` notes at its own path whether `path` was there; nobody else does anything. */
  ghost function Spy<T(!new)>(a: T, b: T, path: string, own: string): (T, Tree) -> Tree {
    (x: T, t: Tree) => if x == b then t[path := "1"] else if x == a then t[own := if path in t then "1" else "0"] else t
  }

  lemma SpyConfined<T(!new)>(w: Workflow<T>, looks: (T, string) -> bool, a: T, b: T, path: string, own: string)
    requires CoveredBy(ScopesOf(w, a), own) && CoveredBy(ScopesOf(w, b), path) && looks(a, path)
    ensures Confined(w, Spy(a, b, path, own), looks)
  {
    var act := Spy(a, b, path, own);
    forall x, t, u, p | x in w.deps && At(t, p) == At(u, p) && (forall q :: looks(x, q) ==> At(t, q) == At(u, q))
      ensures At(act(x, t), p) == At(act(x, u), p)
    {
      if x == a { assert At(t, path) == At(u, path); }
    }
  }

  /** The two nodes in either order, everybody else around them, from an empty tree. */
  lemma SpyRun<T(!new)>(a: T, b: T, x: T, y: T, path: string, own: string, before: seq<T>, after: seq<T>)
    requires a != b && ((x == a && y == b) || (x == b && y == a))
    requires a !in before && b !in before && a !in after && b !in after
    ensures RunAll(Spy(a, b, path, own), before + [x, y] + after, map[]) ==
            Spy(a, b, path, own)(y, Spy(a, b, path, own)(x, map[]))
  {
    var act := Spy(a, b, path, own);
    RunAppend(act, before + [x, y], after, map[]);
    RunAppend(act, before, [x, y], map[]);
    RunIdle(act, before, map[]);
    RunTwo(act, x, y, map[]);
    RunIdle(act, after, act(y, act(x, map[])));
  }

  lemma SpyTells<T(!new)>(a: T, b: T, path: string, own: string)
    requires a != b && path != own
    ensures var act := Spy(a, b, path, own); act(b, act(a, map[])) != act(a, act(b, map[]))
  {
    var act := Spy(a, b, path, own);
    assert act(b, act(a, map[]))[own] == "0" && act(a, act(b, map[]))[own] == "1";
  }

  /** A node that reads what an unordered node may write can be made to tell the order. */
  lemma RaceBreaksOrder<T(!new)>(w: Workflow<T>, looks: (T, string) -> bool, a: T, b: T, path: string)
    requires Accepted(w) && AllWrite(w) && a in w.deps && b in w.deps && a != b && !Ordered(w.deps, a, b)
    requires looks(a, path) && CoveredBy(ScopesOf(w, b), path)
    ensures !OrderIrrelevant(w, looks)
  {
    var own := OwnPath(w, a);
    OwnPathCovered(w, a);
    OwnPathApart(w, a, b, path);
    SpyConfined(w, looks, a, b, path, own);
    var before, after := OrderAround(w.deps, a, b);
    SpiesDiffer(a, b, path, own, before, after);
    DifferenceTells(w, looks, Spy(a, b, path, own), before + [a, b] + after, before + [b, a] + after);
  }

  lemma OwnPathApart<T(!new)>(w: Workflow<T>, a: T, b: T, path: string)
    requires Accepted(w) && AllWrite(w) && a in w.deps && b in w.deps && a != b && !Ordered(w.deps, a, b)
    requires CoveredBy(ScopesOf(w, b), path)
    ensures OwnPath(w, a) != path
  {
    OwnPathCovered(w, a);
    UnorderedApart(w, a, b);
    NothingShared(ScopesOf(w, a), ScopesOf(w, b));
  }

  lemma SpiesDiffer<T(!new)>(a: T, b: T, path: string, own: string, before: seq<T>, after: seq<T>)
    requires a != b && path != own
    requires a !in before && b !in before && a !in after && b !in after
    ensures RunAll(Spy(a, b, path, own), before + [a, b] + after, map[]) != RunAll(Spy(a, b, path, own), before + [b, a] + after, map[])
  {
    SpyRun(a, b, a, b, path, own, before, after);
    SpyRun(a, b, b, a, path, own, before, after);
    SpyTells(a, b, path, own);
  }

  lemma MarkersDiffer<T(!new)>(a: T, b: T, path: string, before: seq<T>, after: seq<T>)
    requires a != b
    requires a !in before && b !in before && a !in after && b !in after
    ensures RunAll(Marker(a, b, path), before + [a, b] + after, map[]) != RunAll(Marker(a, b, path), before + [b, a] + after, map[])
  {
    var act := Marker(a, b, path);
    MarkersRun(a, b, a, b, path, before, after, map[]);
    MarkersRun(a, b, b, a, path, before, after, map[]);
    assert act(b, map[])[path] == "second" && act(a, map[])[path] == "first";
  }

  lemma DifferenceTells<T(!new)>(w: Workflow<T>, looks: (T, string) -> bool, act: (T, Tree) -> Tree, first: seq<T>, second: seq<T>)
    requires Confined(w, act, looks) && Respects(w.deps, first) && Respects(w.deps, second)
    requires ListsSet(first, w.deps.Keys) && ListsSet(second, w.deps.Keys)
    requires RunAll(act, first, map[]) != RunAll(act, second, map[])
    ensures !OrderIrrelevant(w, looks)
  {
  }

  /** Unordered nodes with overlapping scopes tell the order even without reading. */
  lemma OverlapTells<T(!new)>(w: Workflow<T>, looks: (T, string) -> bool, a: T, b: T)
    requires WellFormed(w) && a in w.deps && b in w.deps && a != b
    requires !Ordered(w.deps, a, b) && ScopesOverlap(ScopesOf(w, a), ScopesOf(w, b))
    ensures !OrderIrrelevant(w, looks)
  {
    var path := SharedPath(ScopesOf(w, a), ScopesOf(w, b));
    MarkerConfined(w, looks, a, b, path);
    var before, after := OrderAround(w.deps, a, b);
    MarkersDiffer(a, b, path, before, after);
    DifferenceTells(w, looks, Marker(a, b, path), before + [a, b] + after, before + [b, a] + after);
  }

  /** For any set of reads: no order matters exactly if the validator accepts the scopes and no node
      reads what a node it is not ordered with may write. */
  lemma OrderIrrelevantExactly<T(!new)>(w: Workflow<T>, looks: (T, string) -> bool)
    requires WellFormed(w) && AllWrite(w)
    ensures OrderIrrelevant(w, looks) <==> Serialized(w) && RaceFree(w, looks)
  {
    if Serialized(w) && RaceFree(w, looks) {
      forall act: (T, Tree) -> Tree, first: seq<T>, second: seq<T>, t: Tree |
        Confined(w, act, looks) && Respects(w.deps, first) && Respects(w.deps, second)
        && ListsSet(first, w.deps.Keys) && ListsSet(second, w.deps.Keys)
        ensures RunAll(act, first, t) == RunAll(act, second, t)
      {
        InSet(second, w.deps.Keys);
        ScheduleIndependence(w, act, looks, first, second, t);
      }
    } else if !Serialized(w) {
      var a, b :| a in w.deps && b in w.deps && a != b && ScopesOverlap(ScopesOf(w, a), ScopesOf(w, b)) && !Ordered(w.deps, a, b);
      OverlapTells(w, looks, a, b);
    } else {
      var a, b, path :| a in w.deps && b in w.deps && a != b && looks(a, path) && CoveredBy(ScopesOf(w, b), path) && !Ordered(w.deps, a, b);
      RaceBreaksOrder(w, looks, a, b, path);
    }
  }

  /* ---- A recipe with a race ---- */

  /** One node writes `x`, the other copies it to `y`; neither depends on the other. */
  const COPYING: Workflow<bool> := Workflow(map[true := [], false := []], map[true := ["x"], false := ["y"]])

  function CopyAct(): (bool, Tree) -> Tree {
    (writer: bool, t: Tree) => if writer then t["x" := "1"] else t["y" := if "x" in t then t["x"] else ""]
  }

  function CopyLooks(): (bool, string) -> bool {
    (writer: bool, p: string) => !writer && p == "x"
  }

  lemma CopyingAccepted()
    ensures Accepted(COPYING) && !Ordered(COPYING.deps, false, true)
  {
    NoEdgesNoReach(COPYING.deps);
    assert Stem("x") == "x" && Stem("y") == "y" && !RootsOverlap("x", "y");
    assert !ScopesOverlap(["x"], ["y"]) && !ScopesOverlap(["y"], ["x"]);
  }

  lemma CopyingCovers()
    ensures CoveredBy(["x"], "x") && CoveredBy(["y"], "y")
  {
    assert Covers(Stem(["x"][0]), "x") && Covers(Stem(["y"][0]), "y");
  }

  lemma CopyingConfined()
    ensures Confined(COPYING, CopyAct(), CopyLooks())
  {
    CopyingCovers();
    var act, looks := CopyAct(), CopyLooks();
    forall a, t, u, p | At(t, p) == At(u, p) && (forall q :: looks(a, q) ==> At(t, q) == At(u, q))
      ensures At(act(a, t), p) == At(act(a, u), p)
    {
      if !a { assert looks(false, "x") && At(t, "x") == At(u, "x"); }
    }
  }

  /** Disjoint scopes alone do not help a node that reads what an unordered node writes. */
  lemma RacyReadsBreakOrder()
    ensures Accepted(COPYING) && Confined(COPYING, CopyAct(), CopyLooks()) && !RaceFree(COPYING, CopyLooks())
    ensures Respects(COPYING.deps, [true, false]) && Respects(COPYING.deps, [false, true])
    ensures RunAll(CopyAct(), [true, false], map[]) != RunAll(CopyAct(), [false, true], map[])
  {
    CopyingAccepted();
    CopyingConfined();
    CopyingCovers();
    NoEdgesNoReach(COPYING.deps);
    assert CopyLooks()(false, "x") && CoveredBy(ScopesOf(COPYING, true), "x");
    RunTwo(CopyAct(), true, false, map[]);
    RunTwo(CopyAct(), false, true, map[]);
    assert CopyAct()(false, CopyAct()(true, map[]))["y"] == "1";
    assert CopyAct()(true, CopyAct()(false, map[]))["y"] == "";
  }

  lemma NoEdgesNoReach<T(!new)>(g: Graph<T>)
    requires forall a :: a in g ==> g[a] == []
    ensures Closed(g) && forall a, b :: !Reaches(g, a, b)
  {
    forall a, b ensures !Reaches(g, a, b) {
      if Reaches(g, a, b) { FirstStep(g, a, b); }
    }
  }
}
