/** The depth-first searches over dependencies: the manifest closure, the recipe cycle check and
    the memoized ancestor sets. Each search object holds the sets its nested visitor updates. */
module GraphSearch {
  import opened Prelude
  import opened Graph

  datatype SearchError<T> = Unknown(node: T) | Cycle(node: T)

  /** Everything reached from a start node exists and lies on no cycle. */
  ghost predicate Sound<T(!new)>(g: Graph<T>, start: seq<T>) {
    forall a, x {:trigger ReachesOrIs(g, a, x)} :: a in start && ReachesOrIs(g, a, x) ==> x in g && !Reaches(g, x, x)
  }

  ghost predicate ReachedFrom<T(!new)>(g: Graph<T>, start: seq<T>, x: T) {
    exists a :: a in start && ReachesOrIs(g, a, x)
  }

  lemma StepOrIs<T(!new)>(g: Graph<T>, a: T, b: T, c: T)
    requires Edge(g, a, b) && ReachesOrIs(g, b, c)
    ensures ReachesOrIs(g, a, c)
  {
    Step(g, a, b, c);
  }

  /** A node whose dependencies lie in a closed set it is no member of is on no cycle. */
  lemma NewNodeIsOnNoCycle<T(!new)>(g: Graph<T>, s: set<T>, a: T)
    requires ClosedSet(g, s) && a in g && a !in s
    requires forall b :: b in g[a] ==> b in s
    ensures !Reaches(g, a, a) && ClosedSet(g, s + {a})
  {
    if Reaches(g, a, a) {
      FirstStep(g, a, a);
      var b :| Edge(g, a, b) && ReachesOrIs(g, b, a);
      if b != a { ReachStays(g, s, b, a); }
      assert false;
    }
  }

  /** All of a closed set is below its start nodes, so it is exactly what they reach. */
  lemma ClosedSetHasAll<T(!new)>(g: Graph<T>, s: set<T>, start: seq<T>)
    requires ClosedSet(g, s) && forall a :: a in start ==> a in s
    ensures forall x :: ReachedFrom(g, start, x) ==> x in s
  {
    forall x | ReachedFrom(g, start, x) ensures x in s {
      var a :| a in start && ReachesOrIs(g, a, x);
      if a != x { ReachStays(g, s, a, x); }
    }
  }

  /** Every node of `s` lies above `a`. */
  ghost predicate AllReach<T(!new)>(g: Graph<T>, s: set<T>, a: T) {
    forall x :: x in s ==> Reaches(g, x, a)
  }

  /** Whatever `now` has beyond `before` is reached from `a`. */
  ghost predicate GrownBy<T(!new)>(g: Graph<T>, before: set<T>, now: set<T>, a: T) {
    before <= now && forall x :: x in now ==> x in before || ReachesOrIs(g, a, x)
  }

  lemma AllReachNext<T(!new)>(g: Graph<T>, s: set<T>, a: T, b: T)
    requires AllReach(g, s, a) && Edge(g, a, b)
    ensures AllReach(g, s + {a}, b)
  {
    EdgeReaches(g, a, b);
    forall x | x in s ensures Reaches(g, x, b) { Transitive(g, x, a, b); }
  }

  lemma GrownByStep<T(!new)>(g: Graph<T>, before: set<T>, middle: set<T>, now: set<T>, a: T, b: T)
    requires GrownBy(g, before, middle, a) && GrownBy(g, middle, now, b) && Edge(g, a, b)
    ensures GrownBy(g, before, now, a)
  {
    forall x | x in now ensures x in before || ReachesOrIs(g, a, x) {
      if x !in middle { StepOrIs(g, a, b, x); }
    }
  }

  /** A closed set of nodes none of which is on a cycle. */
  ghost predicate Settled<T(!new)>(g: Graph<T>, s: set<T>) {
    ClosedSet(g, s) && forall x :: x in s ==> !Reaches(g, x, x)
  }

  lemma SettledGrows<T(!new)>(g: Graph<T>, s: set<T>, a: T)
    requires Settled(g, s) && a in g && a !in s && forall b :: b in g[a] ==> b in s
    ensures Settled(g, s + {a})
  {
    NewNodeIsOnNoCycle(g, s, a);
  }

  lemma Shrinks<T>(all: set<T>, seen: set<T>, x: T)
    requires x in all && x !in seen
    ensures |all - (seen + {x})| < |all - seen|
  {
    assert all - (seen + {x}) == (all - seen) - {x};
  }

  class DependencyClosure<T(==,!new)> {
    var result: set<T>
    var visiting: set<T>

    constructor ()
      ensures result == {} && visiting == {}
    {
      result, visiting := {}, {};
    }

    ghost predicate Valid(g: Graph<T>)
      reads this
    {
      Settled(g, result) && visiting <= g.Keys && visiting !! result
    }

    method Visit(g: Graph<T>, item: T) returns (r: Result<(), SearchError<T>>)
      requires Valid(g) && AllReach(g, visiting, item)
      modifies this
      ensures r.Ok? ==> Valid(g) && visiting == old(visiting)
      ensures r.Ok? ==> item in result && GrownBy(g, old(result), result, item)
      ensures r.Err? ==> ReachesOrIs(g, item, r.error.node)
      ensures r.Err? ==> if r.error.Unknown? then r.error.node !in g else Reaches(g, r.error.node, r.error.node)
      decreases |g.Keys - visiting|, 0
    {
      if item !in g { return Err(Unknown(item)); }
      if item in result { return Ok(()); }
      if item in visiting { return Err(Cycle(item)); }
      ghost var before := visiting;
      Shrinks(g.Keys, visiting, item);
      visiting := visiting + {item};
      r := VisitDependencies(g, item, before);
      if r.Err? { return; }
      SettledGrows(g, result, item);
      visiting := visiting - {item};
      result := result + {item};
      assert visiting == before;
      r := Ok(());
    }

    method VisitDependencies(g: Graph<T>, item: T, ghost before: set<T>) returns (r: Result<(), SearchError<T>>)
      requires item in g && Valid(g) && visiting == before + {item} && AllReach(g, before, item)
      modifies this
      ensures r.Ok? ==> Valid(g) && visiting == old(visiting) && GrownBy(g, old(result), result, item)
      ensures r.Ok? ==> forall b :: b in g[item] ==> b in result
      ensures r.Err? ==> ReachesOrIs(g, item, r.error.node)
      ensures r.Err? ==> if r.error.Unknown? then r.error.node !in g else Reaches(g, r.error.node, r.error.node)
      decreases |g.Keys - visiting|, 1
    {
      var i := 0;
      while i < |g[item]|
        invariant i <= |g[item]| && Valid(g) && visiting == before + {item}
        invariant forall j :: 0 <= j < i ==> g[item][j] in result
        invariant GrownBy(g, old(result), result, item)
      {
        var dependency := g[item][i];
        ghost var held := result;
        AllReachNext(g, before, item, dependency);
        r := Visit(g, dependency);
        if r.Err? {
          StepOrIs(g, item, dependency, r.error.node);
          return;
        }
        GrownByStep(g, old(result), held, result, item, dependency);
        i := i + 1;
      }
      r := Ok(());
    }
  }

  /** Exactly what the start nodes reach, or an error exactly if that meets an unknown node or a cycle. */
  method ClosureOf<T(==,!new)>(start: seq<T>, g: Graph<T>) returns (r: Result<set<T>, SearchError<T>>)
    ensures r.Ok? <==> Sound(g, start)
    ensures r.Ok? ==> forall x :: x in r.value <==> ReachedFrom(g, start, x)
    ensures r.Err? ==> ReachedFrom(g, start, r.error.node)
    ensures r.Err? ==> if r.error.Unknown? then r.error.node !in g else Reaches(g, r.error.node, r.error.node)
  {
    var search := new DependencyClosure<T>();
    var i := 0;
    while i < |start|
      invariant i <= |start| && search.Valid(g) && search.visiting == {}
      invariant forall j :: 0 <= j < i ==> start[j] in search.result
      invariant forall x :: x in search.result ==> ReachedFrom(g, start, x)
    {
      ghost var held := search.result;
      var outcome := search.Visit(g, start[i]);
      if outcome.Err? {
        assert start[i] in start && ReachesOrIs(g, start[i], outcome.error.node);
        return Err(outcome.error);
      }
      forall x | x in search.result ensures ReachedFrom(g, start, x) {
        if x !in held { assert start[i] in start && ReachesOrIs(g, start[i], x); }
      }
      i := i + 1;
    }
    ClosedSetHasAll(g, search.result, start);
    forall a, x | a in start && ReachesOrIs(g, a, x) ensures x in g && !Reaches(g, x, x) {
      assert ReachedFrom(g, start, x);
    }
    r := Ok(search.result);
  }

  class CycleCheck<T(==,!new)> {
    var visiting: set<T>
    var done: set<T>

    constructor ()
      ensures visiting == {} && done == {}
    {
      visiting, done := {}, {};
    }

    ghost predicate Valid(g: Graph<T>)
      reads this
    {
      Settled(g, done) && visiting <= g.Keys && visiting !! done
    }

    /** False exactly when the visitor raises. */
    method Visit(g: Graph<T>, node: T) returns (ok: bool)
      requires Closed(g) && node in g && Valid(g)
      requires AllReach(g, visiting, node)
      modifies this
      ensures ok ==> Valid(g) && visiting == old(visiting) && old(done) <= done && node in done
      ensures !ok ==> exists x :: ReachesOrIs(g, node, x) && Reaches(g, x, x)
      decreases |g.Keys - visiting|, 0
    {
      if node in visiting { return false; }
      if node in done { return true; }
      ghost var before := visiting;
      Shrinks(g.Keys, visiting, node);
      visiting := visiting + {node};
      ok := VisitAll(g, node, before);
      if !ok { return; }
      SettledGrows(g, done, node);
      visiting := visiting - {node};
      done := done + {node};
      assert visiting == before;
    }

    method VisitAll(g: Graph<T>, node: T, ghost before: set<T>) returns (ok: bool)
      requires Closed(g) && node in g && Valid(g) && visiting == before + {node} && AllReach(g, before, node)
      modifies this
      ensures ok ==> Valid(g) && visiting == old(visiting) && old(done) <= done && forall b :: b in g[node] ==> b in done
      ensures !ok ==> exists x :: ReachesOrIs(g, node, x) && Reaches(g, x, x)
      decreases |g.Keys - visiting|, 1
    {
      var i := 0;
      while i < |g[node]|
        invariant i <= |g[node]| && Valid(g) && visiting == before + {node} && old(done) <= done
        invariant forall j :: 0 <= j < i ==> g[node][j] in done
      {
        var dep := g[node][i];
        AllReachNext(g, before, node, dep);
        ok := Visit(g, dep);
        if !ok {
          ghost var x :| ReachesOrIs(g, dep, x) && Reaches(g, x, x);
          StepOrIs(g, node, dep, x);
          return;
        }
        i := i + 1;
      }
      ok := true;
    }
  }

  /** The cycle check of a recipe: it passes exactly on acyclic graphs. */
  method IsAcyclic<T(==,!new)>(g: Graph<T>, ids: seq<T>) returns (ok: bool)
    requires Closed(g) && forall x :: x in ids <==> x in g
    ensures ok <==> Acyclic(g)
  {
    var search := new CycleCheck<T>();
    var i := 0;
    while i < |ids|
      invariant i <= |ids| && search.Valid(g) && search.visiting == {}
      invariant forall j :: 0 <= j < i ==> ids[j] in search.done
    {
      assert ids[i] in ids;
      ok := search.Visit(g, ids[i]);
      if !ok { return; }
      i := i + 1;
    }
    forall x ensures !Reaches(g, x, x) {
      if x in g {
        assert x in search.done;
      } else if Reaches(g, x, x) {
        ReachesNode(g, x, x);
      }
    }
    ok := true;
  }

  class AncestorMemo<T(==,!new)> {
    var ancestors: map<T, set<T>>

    constructor ()
      ensures ancestors == map[]
    {
      ancestors := map[];
    }

    /** Every finished entry is the exact set of strict dependencies; `open` ones are being filled. */
    ghost predicate Valid(g: Graph<T>, open: set<T>)
      reads this
    {
      forall x :: x in ancestors && x !in open ==> x in g && ancestors[x] == BelowSet(g, x)
    }

    method Deps(g: Graph<T>, node: T, ghost open: set<T>) returns (r: set<T>)
      requires Closed(g) && Acyclic(g) && node in g && Valid(g, open)
      requires AllReach(g, open, node)
      modifies this
      ensures r == BelowSet(g, node) && Valid(g, open) && node in ancestors
      ensures forall x :: x in old(ancestors) ==> x in ancestors && ancestors[x] == old(ancestors)[x]
      decreases |BelowSet(g, node)|
    {
      assert node !in open;
      if node !in ancestors {
        ghost var inner := open + {node};
        var direct := set b | b in g[node];
        ancestors := ancestors[node := direct];
        var left := direct;
        forall b | b in direct ensures b in BelowSet(g, node) { EdgeReaches(g, node, b); }
        while left != {}
          invariant left <= direct && node in ancestors && Valid(g, inner)
          invariant forall x :: x in old(ancestors) ==> x in ancestors && ancestors[x] == old(ancestors)[x]
          invariant direct <= ancestors[node] <= BelowSet(g, node)
          invariant forall b :: b in direct - left ==> BelowSet(g, b) <= ancestors[node]
          decreases left
        {
          var dep :| dep in left;
          EdgeReaches(g, node, dep);
          BelowShrinks(g, node, dep);
          AllReachNext(g, open, node, dep);
          var more := Deps(g, dep, inner);
          forall x | x in more ensures x in BelowSet(g, node) { Transitive(g, node, dep, x); }
          ancestors := ancestors[node := ancestors[node] + more];
          left := left - {dep};
        }
        forall x | x in BelowSet(g, node) ensures x in ancestors[node] {
          FirstStep(g, node, x);
          var b :| Edge(g, node, b) && ReachesOrIs(g, b, x);
          assert b in direct && (b == x || x in BelowSet(g, b));
        }
      }
      r := ancestors[node];
    }
  }
}
