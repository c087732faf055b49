/** Dependency graphs: which nodes a node depends on, directly or through others. */
module Graph {

  /** The direct dependencies of each known node. */
  type Graph<T> = map<T, seq<T>>

  ghost predicate Edge<T(!new)>(g: Graph<T>, a: T, b: T) {
    a in g && b in g[a]
  }

  ghost predicate IsPath<T(!new)>(g: Graph<T>, p: seq<T>) {
    p != [] && forall i :: 0 <= i < |p| - 1 ==> Edge(g, p[i], p[i + 1])
  }

  ghost predicate PathFrom<T(!new)>(g: Graph<T>, p: seq<T>, a: T, b: T) {
    IsPath(g, p) && p[0] == a && p[|p| - 1] == b
  }

  /** A path of at least one edge leads from `a` to `b`. */
  ghost predicate Reaches<T(!new)>(g: Graph<T>, a: T, b: T) {
    exists p :: PathFrom(g, p, a, b) && |p| >= 2
  }

  ghost predicate ReachesOrIs<T(!new)>(g: Graph<T>, a: T, b: T) {
    a == b || Reaches(g, a, b)
  }

  ghost predicate Acyclic<T(!new)>(g: Graph<T>) {
    forall x :: !Reaches(g, x, x)
  }

  /** Every dependency is a node. */
  ghost predicate Closed<T(!new)>(g: Graph<T>) {
    forall a, b :: a in g && b in g[a] ==> b in g
  }

  /** A set of nodes that contains what its members depend on. */
  ghost predicate ClosedSet<T(!new)>(g: Graph<T>, s: set<T>) {
    forall a :: a in s ==> a in g && forall b :: b in g[a] ==> b in s
  }

  lemma EdgeReaches<T(!new)>(g: Graph<T>, a: T, b: T)
    requires Edge(g, a, b)
    ensures Reaches(g, a, b)
  {
    assert PathFrom(g, [a, b], a, b);
  }

  lemma Transitive<T(!new)>(g: Graph<T>, a: T, b: T, c: T)
    requires Reaches(g, a, b) && Reaches(g, b, c)
    ensures Reaches(g, a, c)
  {
    var p :| PathFrom(g, p, a, b) && |p| >= 2;
    var q :| PathFrom(g, q, b, c) && |q| >= 2;
    Join(g, p, q);
    assert PathFrom(g, p + q[1..], a, c);
  }

  lemma Join<T(!new)>(g: Graph<T>, p: seq<T>, q: seq<T>)
    requires IsPath(g, p) && IsPath(g, q) && p[|p| - 1] == q[0]
    ensures IsPath(g, p + q[1..])
  {
    var r := p + q[1..];
    forall i | 0 <= i < |r| - 1 ensures Edge(g, r[i], r[i + 1]) {
      if i < |p| - 1 {
        assert Edge(g, p[i], p[i + 1]);
      } else {
        var j := i - (|p| - 1);
        assert r[i] == q[j] && r[i + 1] == q[j + 1];
        assert Edge(g, q[j], q[j + 1]);
      }
    }
  }

  /** Every way from a node starts with an edge. */
  lemma FirstStep<T(!new)>(g: Graph<T>, a: T, c: T)
    requires Reaches(g, a, c)
    ensures exists b :: Edge(g, a, b) && ReachesOrIs(g, b, c)
  {
    var p :| PathFrom(g, p, a, c) && |p| >= 2;
    assert Edge(g, p[0], p[1]);
    if |p| > 2 {
      var q := p[1..];
      assert PathFrom(g, q, p[1], c) by {
        forall i | 0 <= i < |q| - 1 ensures Edge(g, q[i], q[i + 1]) {
          assert Edge(g, p[i + 1], p[i + 2]);
        }
      }
    }
  }

  lemma Step<T(!new)>(g: Graph<T>, a: T, b: T, c: T)
    requires Edge(g, a, b) && ReachesOrIs(g, b, c)
    ensures Reaches(g, a, c)
  {
    EdgeReaches(g, a, b);
    if b != c { Transitive(g, a, b, c); }
  }

  /** Paths do not leave a set that contains its members' dependencies. */
  lemma {:induction false} PathStays<T(!new)>(g: Graph<T>, s: set<T>, p: seq<T>, i: nat)
    requires ClosedSet(g, s) && IsPath(g, p) && p[0] in s && i < |p|
    ensures p[i] in s
  {
    if i > 0 {
      PathStays(g, s, p, i - 1);
      assert Edge(g, p[i - 1], p[i - 1 + 1]);
    }
  }

  lemma ReachStays<T(!new)>(g: Graph<T>, s: set<T>, a: T, b: T)
    requires ClosedSet(g, s) && a in s && Reaches(g, a, b)
    ensures b in s
  {
    var p :| PathFrom(g, p, a, b) && |p| >= 2;
    PathStays(g, s, p, |p| - 1);
  }

  /** What is reached in a closed graph is a node. */
  lemma ReachesNode<T(!new)>(g: Graph<T>, a: T, b: T)
    requires Reaches(g, a, b)
    ensures a in g
    ensures Closed(g) ==> b in g
  {
    FirstStep(g, a, b);
    if Closed(g) { ReachStays(g, g.Keys, a, b); }
  }

  /** All nodes strictly below `a`. */
  ghost function BelowSet<T(!new)>(g: Graph<T>, a: T): set<T> {
    set x | x in g && Reaches(g, a, x)
  }

  /** In an acyclic graph a node has strictly more nodes below it than any it reaches. */
  lemma BelowShrinks<T(!new)>(g: Graph<T>, a: T, b: T)
    requires Closed(g) && Acyclic(g) && Reaches(g, a, b)
    ensures |BelowSet(g, b)| < |BelowSet(g, a)|
  {
    ReachesNode(g, a, b);
    forall x | x in BelowSet(g, b) ensures x in BelowSet(g, a) {
      Transitive(g, a, b, x);
    }
    assert b in BelowSet(g, a) && b !in BelowSet(g, b);
    SubsetSize(BelowSet(g, b), BelowSet(g, a) - {b});
  }

  lemma {:induction false} SubsetSize<T(!new)>(a: set<T>, b: set<T>)
    requires a <= b
    ensures |a| <= |b|
    decreases a
  {
    if a != {} {
      var x :| x in a;
      SubsetSize(a - {x}, b - {x});
    }
  }

  /* ---- Graphs that collapse onto one another ---- */

  /** `fine` collapses onto `coarse`: every node stands for a node of `coarse`, each of those is stood
      for, and the edges of `fine` are exactly the edges between what its nodes stand for. */
  ghost predicate Collapses<S(!new), T(!new)>(fine: Graph<S>, coarse: Graph<T>, onto: S -> T, back: T -> S) {
    && Closed(fine) && Closed(coarse)
    && (forall x :: x in fine ==> onto(x) in coarse)
    && (forall a :: a in coarse ==> back(a) in fine && onto(back(a)) == a)
    && (forall x, y :: x in fine && y in fine ==> (Edge(fine, x, y) <==> Edge(coarse, onto(x), onto(y))))
  }

  lemma {:induction false} PathInside<T(!new)>(g: Graph<T>, p: seq<T>, i: nat)
    requires Closed(g) && IsPath(g, p) && p[0] in g && i < |p|
    ensures p[i] in g
  {
    if i > 0 {
      PathInside(g, p, i - 1);
      assert Edge(g, p[i - 1], p[i - 1 + 1]);
    }
  }

  lemma CollapsedPath<S(!new), T(!new)>(fine: Graph<S>, coarse: Graph<T>, onto: S -> T, back: T -> S, x: S, y: S)
    requires Collapses(fine, coarse, onto, back) && x in fine && y in fine && Reaches(fine, x, y)
    ensures Reaches(coarse, onto(x), onto(y))
  {
    var p :| PathFrom(fine, p, x, y) && |p| >= 2;
    var q := seq(|p|, i requires 0 <= i < |p| => onto(p[i]));
    forall i | 0 <= i < |q| - 1 ensures Edge(coarse, q[i], q[i + 1]) {
      PathInside(fine, p, i);
      PathInside(fine, p, i + 1);
      assert Edge(fine, p[i], p[i + 1]);
    }
    assert PathFrom(coarse, q, onto(x), onto(y));
  }

  lemma LiftedPath<S(!new), T(!new)>(fine: Graph<S>, coarse: Graph<T>, onto: S -> T, back: T -> S, x: S, y: S)
    requires Collapses(fine, coarse, onto, back) && x in fine && y in fine && Reaches(coarse, onto(x), onto(y))
    ensures Reaches(fine, x, y)
  {
    var p :| PathFrom(coarse, p, onto(x), onto(y)) && |p| >= 2;
    var last := |p| - 1;
    var q := seq(|p|, i requires 0 <= i < |p| => if i == 0 then x else if i == last then y else back(p[i]));
    forall i | 0 <= i < |p| ensures p[i] in coarse && q[i] in fine && onto(q[i]) == p[i] {
      PathInside(coarse, p, i);
    }
    forall i | 0 <= i < |q| - 1 ensures Edge(fine, q[i], q[i + 1]) {
      assert Edge(coarse, p[i], p[i + 1]);
      assert q[i] in fine && q[i + 1] in fine;
    }
    assert PathFrom(fine, q, x, y);
  }

  /** Collapsing keeps reachability both ways, and with it acyclicity. */
  lemma CollapseReaches<S(!new), T(!new)>(fine: Graph<S>, coarse: Graph<T>, onto: S -> T, back: T -> S, x: S, y: S)
    requires Collapses(fine, coarse, onto, back) && x in fine && y in fine
    ensures Reaches(fine, x, y) <==> Reaches(coarse, onto(x), onto(y))
  {
    if Reaches(fine, x, y) { CollapsedPath(fine, coarse, onto, back, x, y); }
    if Reaches(coarse, onto(x), onto(y)) { LiftedPath(fine, coarse, onto, back, x, y); }
  }

  lemma CollapseAcyclic<S(!new), T(!new)>(fine: Graph<S>, coarse: Graph<T>, onto: S -> T, back: T -> S)
    requires Collapses(fine, coarse, onto, back)
    ensures Acyclic(fine) <==> Acyclic(coarse)
  {
    forall x ensures Reaches(fine, x, x) ==> !Acyclic(coarse) {
      if Reaches(fine, x, x) {
        ReachesNode(fine, x, x);
        CollapsedPath(fine, coarse, onto, back, x, x);
      }
    }
    forall a ensures Reaches(coarse, a, a) ==> !Acyclic(fine) {
      if Reaches(coarse, a, a) {
        ReachesNode(coarse, a, a);
        LiftedPath(fine, coarse, onto, back, back(a), back(a));
      }
    }
  }
}
