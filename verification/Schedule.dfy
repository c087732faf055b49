/** Why the order in which a recipe's nodes run does not matter. */
module Schedule {
  import opened Prelude
  import opened Graph
  import opened GraphSearch
  import opened Scopes

  /** What is on disk: contents by path. */
  type Tree = map<string, string>

  datatype Workflow<T> = Workflow(deps: Graph<T>, scopes: map<T, seq<string>>)

  function ScopesOf<T(==)>(w: Workflow<T>, a: T): seq<string> {
    if a in w.scopes then w.scopes[a] else []
  }

  ghost predicate Ordered<T(!new)>(g: Graph<T>, a: T, b: T) {
    Reaches(g, a, b) || Reaches(g, b, a)
  }

  predicate ScopesOverlap(a: seq<string>, b: seq<string>) {
    exists i, j :: 0 <= i < |a| && 0 <= j < |b| && RootsOverlap(Stem(a[i]), Stem(b[j]))
  }

  /** The recipe's pairwise check: nodes with overlapping scopes depend on one another. */
  ghost predicate Serialized<T(!new)>(w: Workflow<T>) {
    forall a, b :: a in w.deps && b in w.deps && a != b && ScopesOverlap(ScopesOf(w, a), ScopesOf(w, b)) ==> Ordered(w.deps, a, b)
  }

  ghost predicate WellFormed<T(!new)>(w: Workflow<T>) {
    Closed(w.deps) && Acyclic(w.deps) && w.scopes.Keys == w.deps.Keys
  }

  ghost predicate Accepted<T(!new)>(w: Workflow<T>) {
    WellFormed(w) && Serialized(w)
  }

  /* ---- The check itself ---- */

  method OverlapAny(a: seq<string>, b: seq<string>) returns (found: bool)
    ensures found <==> ScopesOverlap(a, b)
  {
    var i := 0;
    while i < |a|
      invariant i <= |a|
      invariant forall k, j :: 0 <= k < i && 0 <= j < |b| ==> !RootsOverlap(Stem(a[k]), Stem(b[j]))
    {
      var j := 0;
      while j < |b|
        invariant j <= |b|
        invariant forall k :: 0 <= k < j ==> !RootsOverlap(Stem(a[i]), Stem(b[k]))
      {
        if RootsOverlap(Stem(a[i]), Stem(b[j])) { return true; }
        j := j + 1;
      }
      i := i + 1;
    }
    found := false;
  }

  ghost predicate PairFine<T(!new)>(w: Workflow<T>, a: T, b: T) {
    Ordered(w.deps, a, b) || !ScopesOverlap(ScopesOf(w, a), ScopesOf(w, b))
  }

  /** One pair passes when one node is an ancestor of the other or their scopes stay apart. */
  method PairPasses<T(==,!new)>(w: Workflow<T>, memo: AncestorMemo<T>, left: T, right: T) returns (ok: bool)
    requires WellFormed(w) && left in w.deps && right in w.deps && memo.Valid(w.deps, {})
    modifies memo
    ensures memo.Valid(w.deps, {})
    ensures ok <==> PairFine(w, left, right)
  {
    var below := memo.Deps(w.deps, right, {});
    if left in below { return true; }
    below := memo.Deps(w.deps, left, {});
    if right in below { return true; }
    var found := OverlapAny(ScopesOf(w, left), ScopesOf(w, right));
    ok := !found;
  }

  ghost predicate Listing<T(!new)>(ids: seq<T>, g: Graph<T>) {
    (forall x :: x in ids <==> x in g) && forall i, j :: 0 <= i < j < |ids| ==> ids[i] != ids[j]
  }

  lemma OverlapSymmetric(a: seq<string>, b: seq<string>)
    ensures ScopesOverlap(a, b) <==> ScopesOverlap(b, a)
  {
    if i, j :| 0 <= i < |a| && 0 <= j < |b| && RootsOverlap(Stem(a[i]), Stem(b[j])) {
      assert RootsOverlap(Stem(b[j]), Stem(a[i]));
    }
    if j, i :| 0 <= j < |b| && 0 <= i < |a| && RootsOverlap(Stem(b[j]), Stem(a[i])) {
      assert RootsOverlap(Stem(a[i]), Stem(b[j]));
    }
  }

  /** Row `i` of the pairwise check up to column `n`. */
  ghost predicate RowFine<T(!new)>(w: Workflow<T>, ids: seq<T>, i: nat, n: nat)
    requires i < |ids| && n <= |ids|
  {
    forall j :: i < j < n ==> PairFine(w, ids[i], ids[j])
  }

  ghost predicate AllRowsFine<T(!new)>(w: Workflow<T>, ids: seq<T>, n: nat)
    requires n <= |ids|
  {
    forall i :: 0 <= i < n ==> RowFine(w, ids, i, |ids|)
  }

  lemma PairsMakeSerialized<T(!new)>(w: Workflow<T>, ids: seq<T>)
    requires WellFormed(w) && Listing(ids, w.deps)
    ensures forall i :: 0 <= i < |ids| ==> ids[i] in w.deps
    ensures AllRowsFine(w, ids, |ids|) <==> Serialized(w)
  {
    assert forall i :: 0 <= i < |ids| ==> ids[i] in ids;
    if AllRowsFine(w, ids, |ids|) {
      forall a, b | a in w.deps && b in w.deps && a != b && ScopesOverlap(ScopesOf(w, a), ScopesOf(w, b))
        ensures Ordered(w.deps, a, b)
      {
        var i :| 0 <= i < |ids| && ids[i] == a;
        var j :| 0 <= j < |ids| && ids[j] == b;
        if i < j { PairInRow(w, ids, i, j); } else { PairInRow(w, ids, j, i); }
        OverlapSymmetric(ScopesOf(w, a), ScopesOf(w, b));
      }
    }
  }

  lemma PairInRow<T(!new)>(w: Workflow<T>, ids: seq<T>, i: nat, j: nat)
    requires AllRowsFine(w, ids, |ids|) && i < j < |ids|
    ensures PairFine(w, ids[i], ids[j])
  {
    assert RowFine(w, ids, i, |ids|);
  }

  lemma RowStep<T(!new)>(w: Workflow<T>, ids: seq<T>, i: nat, j: nat)
    requires i < j < |ids|
    ensures RowFine(w, ids, i, j + 1) <==> RowFine(w, ids, i, j) && PairFine(w, ids[i], ids[j])
    ensures RowFine(w, ids, i, |ids|) ==> RowFine(w, ids, i, j + 1)
  {
  }

  method RowPasses<T(==,!new)>(w: Workflow<T>, memo: AncestorMemo<T>, ids: seq<T>, i: nat) returns (ok: bool)
    requires WellFormed(w) && memo.Valid(w.deps, {}) && i < |ids| && forall k :: 0 <= k < |ids| ==> ids[k] in w.deps
    modifies memo
    ensures memo.Valid(w.deps, {})
    ensures ok <==> RowFine(w, ids, i, |ids|)
  {
    var j := i + 1;
    ok := true;
    while j < |ids| && ok
      invariant i < j <= |ids| && memo.Valid(w.deps, {})
      invariant ok ==> RowFine(w, ids, i, j)
      invariant !ok ==> !RowFine(w, ids, i, |ids|)
    {
      ok := PairPasses(w, memo, ids[i], ids[j]);
      RowStep(w, ids, i, j);
      j := j + 1;
    }
  }

  /** The validator's graph part: it passes exactly on accepted workflows. */
  method CheckSchedule<T(==,!new)>(w: Workflow<T>, ids: seq<T>) returns (ok: bool)
    requires Closed(w.deps) && w.scopes.Keys == w.deps.Keys && Listing(ids, w.deps)
    ensures ok <==> Accepted(w)
  {
    ok := IsAcyclic(w.deps, ids);
    if ok {
      PairsMakeSerialized(w, ids);
      var memo := new AncestorMemo<T>();
      ok := AllRowsPass(w, memo, ids);
    }
  }

  method AllRowsPass<T(==,!new)>(w: Workflow<T>, memo: AncestorMemo<T>, ids: seq<T>) returns (ok: bool)
    requires WellFormed(w) && memo.Valid(w.deps, {}) && forall k :: 0 <= k < |ids| ==> ids[k] in w.deps
    modifies memo
    ensures ok <==> AllRowsFine(w, ids, |ids|)
  {
    var i := 0;
    ok := true;
    while i < |ids| && ok
      invariant i <= |ids| && memo.Valid(w.deps, {})
      invariant ok <==> AllRowsFine(w, ids, i)
    {
      ok := RowPasses(w, memo, ids, i);
      AllRowsStep(w, ids, i);
      i := i + 1;
    }
    AllRowsGrow(w, ids, i);
  }

  lemma AllRowsStep<T(!new)>(w: Workflow<T>, ids: seq<T>, i: nat)
    requires i < |ids|
    ensures AllRowsFine(w, ids, i + 1) <==> AllRowsFine(w, ids, i) && RowFine(w, ids, i, |ids|)
  {
  }

  lemma AllRowsGrow<T(!new)>(w: Workflow<T>, ids: seq<T>, i: nat)
    requires i <= |ids|
    ensures !AllRowsFine(w, ids, i) ==> !AllRowsFine(w, ids, |ids|)
  {
  }

  /* ---- Running nodes ---- */

  function At(t: Tree, p: string): Option<string> {
    if p in t then Some(t[p]) else None
  }

  predicate CoveredBy(scopes: seq<string>, p: string) {
    exists i :: 0 <= i < |scopes| && Covers(Stem(scopes[i]), p)
  }

  /** What a node does to the tree, and which paths its result may depend on. */
  ghost predicate Confined<T(!new)>(w: Workflow<T>, act: (T, Tree) -> Tree, looks: (T, string) -> bool) {
    && (forall a, t, p :: a in w.deps && !CoveredBy(ScopesOf(w, a), p) ==> At(act(a, t), p) == At(t, p))
    && (forall a, t, u, p :: a in w.deps && At(t, p) == At(u, p) && (forall q :: looks(a, q) ==> At(t, q) == At(u, q)) ==>
          At(act(a, t), p) == At(act(a, u), p))
  }

  /** No node reads what a node it is not ordered with may write. */
  ghost predicate RaceFree<T(!new)>(w: Workflow<T>, looks: (T, string) -> bool) {
    forall a, b, p :: a in w.deps && b in w.deps && a != b && looks(a, p) && CoveredBy(ScopesOf(w, b), p) ==> Ordered(w.deps, a, b)
  }

  ghost function RunAll<T(!new)>(act: (T, Tree) -> Tree, order: seq<T>, t: Tree): Tree {
    if order == [] then t else RunAll(act, order[1..], act(order[0], t))
  }

  /** Nothing runs twice and nothing runs before something it depends on. */
  ghost predicate Respects<T(!new)>(g: Graph<T>, order: seq<T>) {
    && (forall i, j :: 0 <= i < j < |order| ==> order[i] != order[j])
    && (forall i, j :: 0 <= i < j < |order| ==> !Reaches(g, order[i], order[j]))
  }

  ghost predicate SameNodes<T(!new)>(a: seq<T>, b: seq<T>) {
    multiset(a) == multiset(b)
  }

  lemma TreesEqual(t: Tree, u: Tree)
    requires forall p :: At(t, p) == At(u, p)
    ensures t == u
  {
    forall p ensures p in t <==> p in u { assert At(t, p) == At(u, p); }
    forall p | p in t ensures t[p] == u[p] { assert At(t, p) == At(u, p); }
  }

  /** A path covered by two scopes makes them overlap. */
  lemma SharedPathOverlaps(a: seq<string>, b: seq<string>, p: string)
    requires CoveredBy(a, p) && CoveredBy(b, p)
    ensures ScopesOverlap(a, b)
  {
    var i :| 0 <= i < |a| && Covers(Stem(a[i]), p);
    var j :| 0 <= j < |b| && Covers(Stem(b[j]), p);
    OverlapMeansShared(Stem(a[i]), Stem(b[j]));
  }

  ghost predicate Independent<T(!new)>(w: Workflow<T>, looks: (T, string) -> bool, a: T, b: T) {
    && (forall p :: !(CoveredBy(ScopesOf(w, a), p) && CoveredBy(ScopesOf(w, b), p)))
    && (forall p :: looks(a, p) ==> !CoveredBy(ScopesOf(w, b), p))
    && (forall p :: looks(b, p) ==> !CoveredBy(ScopesOf(w, a), p))
  }

  lemma UnorderedIsIndependent<T(!new)>(w: Workflow<T>, looks: (T, string) -> bool, a: T, b: T)
    requires Accepted(w) && RaceFree(w, looks) && a in w.deps && b in w.deps && a != b && !Ordered(w.deps, a, b)
    ensures Independent(w, looks, a, b)
  {
    UnorderedApart(w, a, b);
    NothingShared(ScopesOf(w, a), ScopesOf(w, b));
    LooksElsewhere(w, looks, a, b);
    LooksElsewhere(w, looks, b, a);
  }

  lemma UnorderedApart<T(!new)>(w: Workflow<T>, a: T, b: T)
    requires Serialized(w) && a in w.deps && b in w.deps && a != b && !Ordered(w.deps, a, b)
    ensures !ScopesOverlap(ScopesOf(w, a), ScopesOf(w, b))
  {
  }

  lemma LooksElsewhere<T(!new)>(w: Workflow<T>, looks: (T, string) -> bool, a: T, b: T)
    requires RaceFree(w, looks) && a in w.deps && b in w.deps && a != b && !Ordered(w.deps, a, b)
    ensures forall p :: looks(a, p) ==> !CoveredBy(ScopesOf(w, b), p)
  {
  }

  lemma NothingShared(a: seq<string>, b: seq<string>)
    requires !ScopesOverlap(a, b)
    ensures forall p :: !(CoveredBy(a, p) && CoveredBy(b, p))
  {
    forall p ensures !(CoveredBy(a, p) && CoveredBy(b, p)) {
      if CoveredBy(a, p) && CoveredBy(b, p) { SharedPathOverlaps(a, b, p); }
    }
  }

  /** Running `b` in between does not change what `a` does outside the scopes of `b`. */
  lemma SeesTheSame<T(!new)>(w: Workflow<T>, act: (T, Tree) -> Tree, looks: (T, string) -> bool, a: T, b: T, t: Tree, p: string)
    requires Confined(w, act, looks) && a in w.deps && b in w.deps
    requires Independent(w, looks, a, b) && !CoveredBy(ScopesOf(w, b), p)
    ensures At(act(a, act(b, t)), p) == At(act(a, t), p)
  {
    assert forall q :: looks(a, q) ==> At(act(b, t), q) == At(t, q);
    assert At(act(b, t), p) == At(t, p);
  }

  lemma CommuteOn<T(!new)>(w: Workflow<T>, act: (T, Tree) -> Tree, looks: (T, string) -> bool, a: T, b: T, t: Tree)
    requires Confined(w, act, looks) && a in w.deps && b in w.deps
    requires Independent(w, looks, a, b)
    ensures act(b, act(a, t)) == act(a, act(b, t))
  {
    var ab, ba := act(b, act(a, t)), act(a, act(b, t));
    forall p ensures At(ab, p) == At(ba, p) {
      if !CoveredBy(ScopesOf(w, b), p) {
        SeesTheSame(w, act, looks, a, b, t, p);
        assert At(ab, p) == At(act(a, t), p);
      } else {
        SeesTheSame(w, act, looks, b, a, t, p);
        assert At(ba, p) == At(act(b, t), p);
      }
    }
    TreesEqual(ab, ba);
  }

  ghost predicate Commutes<T(!new)>(act: (T, Tree) -> Tree, a: T, b: T) {
    forall t :: act(b, act(a, t)) == act(a, act(b, t))
  }

  /** Nodes not ordered with one another commute. */
  ghost predicate UnorderedCommute<T(!new)>(g: Graph<T>, act: (T, Tree) -> Tree) {
    forall a, b :: a in g && b in g && a != b && !Ordered(g, a, b) ==> Commutes(act, a, b)
  }

  lemma AcceptedCommutes<T(!new)>(w: Workflow<T>, act: (T, Tree) -> Tree, looks: (T, string) -> bool)
    requires Accepted(w) && Confined(w, act, looks) && RaceFree(w, looks)
    ensures UnorderedCommute(w.deps, act)
  {
    forall a, b | a in w.deps && b in w.deps && a != b && !Ordered(w.deps, a, b) ensures Commutes(act, a, b) {
      UnorderedIsIndependent(w, looks, a, b);
      forall t ensures act(b, act(a, t)) == act(a, act(b, t)) { CommuteOn(w, act, looks, a, b, t); }
    }
  }

  lemma RunFirst<T(!new)>(act: (T, Tree) -> Tree, x: T, rest: seq<T>, t: Tree)
    ensures RunAll(act, [x] + rest, t) == RunAll(act, rest, act(x, t))
  {
    assert ([x] + rest)[1..] == rest;
  }

  /** A node may move in front of nodes it commutes with. */
  lemma {:induction false} MoveToFront<T(!new)>(act: (T, Tree) -> Tree, before: seq<T>, x: T, after: seq<T>, t: Tree)
    requires forall i :: 0 <= i < |before| ==> Commutes(act, before[i], x)
    ensures RunAll(act, before + ([x] + after), t) == RunAll(act, [x] + (before + after), t)
    decreases |before|
  {
    if before == [] {
      assert [] + ([x] + after) == [x] + after && [] + after == after;
    } else {
      var y, rest := before[0], before[1..];
      MoveToFront(act, rest, x, after, act(y, t));
      assert Commutes(act, before[0], x);
      SwapFront(act, before, x, after, t);
    }
  }

  lemma SwapFront<T(!new)>(act: (T, Tree) -> Tree, before: seq<T>, x: T, after: seq<T>, t: Tree)
    requires before != []
    requires act(x, act(before[0], t)) == act(before[0], act(x, t))
    requires RunAll(act, before[1..] + ([x] + after), act(before[0], t)) == RunAll(act, [x] + (before[1..] + after), act(before[0], t))
    ensures RunAll(act, before + ([x] + after), t) == RunAll(act, [x] + (before + after), t)
  {
    var y, rest := before[0], before[1..];
    assert before + ([x] + after) == [y] + (rest + ([x] + after));
    RunFirst(act, y, rest + ([x] + after), t);
    RunFirst(act, x, rest + after, act(y, t));
    RunFirst(act, y, rest + after, act(x, t));
    assert [y] + (rest + after) == before + after;
    RunFirst(act, x, before + after, t);
  }

  lemma DropKeepsRespect<T(!new)>(g: Graph<T>, order: seq<T>, k: nat)
    requires Respects(g, order) && k < |order|
    ensures Respects(g, order[..k] + order[k + 1..])
  {
    var rest := order[..k] + order[k + 1..];
    forall i, j | 0 <= i < j < |rest| ensures rest[i] != rest[j] && !Reaches(g, rest[i], rest[j]) {
      var i', j' := if i < k then i else i + 1, if j < k then j else j + 1;
      assert rest[i] == order[i'] && rest[j] == order[j'];
    }
  }

  lemma DropKeepsNodes<T(!new)>(a: seq<T>, b: seq<T>, k: nat)
    requires SameNodes(a, b) && a != [] && k < |b| && b[k] == a[0]
    ensures SameNodes(a[1..], b[..k] + b[k + 1..])
  {
    assert a == [a[0]] + a[1..] && b == b[..k] + ([b[k]] + b[k + 1..]);
    var x, rest := multiset{a[0]}, multiset(b[..k]) + multiset(b[k + 1..]);
    assert multiset(b) == multiset(b[..k]) + (x + multiset(b[k + 1..]));
    assert multiset(a) == x + multiset(a[1..]);
    Cancel(x, multiset(a[1..]), rest);
  }

  lemma Cancel<T>(x: multiset<T>, a: multiset<T>, b: multiset<T>)
    requires x + a == x + b
    ensures a == b
  {
    assert a == (x + a) - x && b == (x + b) - x;
  }

  lemma FrontIsUnordered<T(!new)>(g: Graph<T>, first: seq<T>, second: seq<T>, k: nat, i: nat)
    requires Respects(g, first) && Respects(g, second) && SameNodes(first, second) && first != []
    requires i < k < |second| && second[k] == first[0]
    ensures second[i] != second[k] && !Ordered(g, second[i], second[k])
  {
    assert second[i] in multiset(second) && second[i] in multiset(first);
    var j :| 0 <= j < |first| && first[j] == second[i];
  }

  lemma FrontCommutes<T(!new)>(g: Graph<T>, act: (T, Tree) -> Tree, first: seq<T>, second: seq<T>, k: nat, i: nat)
    requires UnorderedCommute(g, act)
    requires Respects(g, first) && Respects(g, second) && SameNodes(first, second)
    requires first != [] && i < k < |second| && second[k] == first[0] && second[i] in g && second[k] in g
    ensures Commutes(act, second[i], second[k])
  {
    FrontIsUnordered(g, first, second, k, i);
  }

  /** The node one order starts with may run first in any other order, too. */
  lemma FrontMoves<T(!new)>(g: Graph<T>, act: (T, Tree) -> Tree, first: seq<T>, second: seq<T>, k: nat, t: Tree)
    requires UnorderedCommute(g, act)
    requires Respects(g, first) && Respects(g, second) && SameNodes(first, second)
    requires (forall i :: 0 <= i < |second| ==> second[i] in g) && first != [] && k < |second| && second[k] == first[0]
    ensures RunAll(act, second, t) == RunAll(act, second[..k] + second[k + 1..], act(first[0], t))
  {
    forall i | 0 <= i < k ensures Commutes(act, second[i], second[k]) { FrontCommutes(g, act, first, second, k, i); }
    BringForward(act, second, k, t);
  }

  lemma BringForward<T(!new)>(act: (T, Tree) -> Tree, order: seq<T>, k: nat, t: Tree)
    requires k < |order| && forall i :: 0 <= i < k ==> Commutes(act, order[i], order[k])
    ensures RunAll(act, order, t) == RunAll(act, order[..k] + order[k + 1..], act(order[k], t))
  {
    var x, before, after := order[k], order[..k], order[k + 1..];
    assert order == before + ([x] + after);
    MoveToFront(act, before, x, after, t);
    RunFirst(act, x, before + after, t);
  }

  lemma {:induction false} OrdersAgree<T(!new)>(g: Graph<T>, act: (T, Tree) -> Tree, first: seq<T>, second: seq<T>, t: Tree)
    requires UnorderedCommute(g, act)
    requires Respects(g, first) && Respects(g, second) && SameNodes(first, second)
    requires forall i :: 0 <= i < |second| ==> second[i] in g
    ensures RunAll(act, first, t) == RunAll(act, second, t)
    decreases |first|
  {
    if first == [] {
      assert |multiset(second)| == 0;
    } else {
      assert first[0] in multiset(second);
      var k :| 0 <= k < |second| && second[k] == first[0];
      FrontMoves(g, act, first, second, k, t);
      DropKeepsRespect(g, second, k);
      DropKeepsRespect(g, first, 0);
      assert first[..0] + first[0 + 1..] == first[1..];
      DropKeepsNodes(first, second, k);
      OrdersAgree(g, act, first[1..], second[..k] + second[k + 1..], act(first[0], t));
    }
  }

  /** Any two orders that respect the dependencies leave the same artifact tree. */
  lemma ScheduleIndependence<T(!new)>(
    w: Workflow<T>, act: (T, Tree) -> Tree, looks: (T, string) -> bool, first: seq<T>, second: seq<T>, t: Tree)
    requires Accepted(w) && Confined(w, act, looks) && RaceFree(w, looks)
    requires Respects(w.deps, first) && Respects(w.deps, second) && SameNodes(first, second)
    requires forall i :: 0 <= i < |second| ==> second[i] in w.deps
    ensures RunAll(act, first, t) == RunAll(act, second, t)
  {
    AcceptedCommutes(w, act, looks);
    OrdersAgree(w.deps, act, first, second, t);
  }
}
