/** What the expansion means: legs collapse onto their anchors, and nothing else changes. */
module ExpansionMeaning {
  import opened Prelude
  import opened Graph
  import opened RouteNodes
  import opened Scopes
  import opened Expansion
  import opened ExpansionForm

  function Width(gs: seq<Real>, a: Id): nat {
    match Own(gs, a) case None => 1 case Some(r) => |r.legs|
  }

  function NameOf(gs: seq<Real>, a: Id, i: nat): Id
    requires i < Width(gs, a)
  {
    match Own(gs, a) case None => a case Some(r) => LegName(a, r.legs, i)
  }

  /** `x` is the i-th leg of node `a` of the recipe. */
  predicate IsLegOf(ns: seq<Node>, gs: seq<Real>, x: Id, a: Id, i: nat) {
    HasId(ns, a) && i < Width(gs, a) && NameOf(gs, a, i) == x
  }

  /** No two legs share a name. */
  ghost predicate NamesDistinct(ns: seq<Node>, gs: seq<Real>) {
    forall x, a, i, b, j :: IsLegOf(ns, gs, x, a, i) && IsLegOf(ns, gs, x, b, j) ==> a == b && i == j
  }

  predicate KnownDeps(ns: seq<Node>) {
    forall i :: 0 <= i < |ns| ==> forall d :: d in ns[i].deps ==> HasId(ns, d)
  }

  ghost predicate Expandable(ns: seq<Node>, gs: seq<Real>) {
    Realizable(ns, gs) && NamesDistinct(ns, gs) && KnownDeps(ns)
  }

  /** The i-th leg that node `n` of the recipe ends up as. */
  function Final(ns: seq<Node>, gs: seq<Real>, n: Node, i: nat): Node
    requires i < Width(gs, n.id)
  {
    match Own(gs, n.id)
    case None => Grown(ns, n, gs)
    case Some(r) => MakeLeg(Grown(ns, n, gs), r.group, r.legs, i)
  }

  /** A leg differs from its node in name, paths, profile, leg data, and what it gained. */
  lemma FinalKeeps(ns: seq<Node>, gs: seq<Real>, n: Node, i: nat)
    requires i < Width(gs, n.id)
    ensures var m := Final(ns, gs, n, i);
            && m.id == NameOf(gs, n.id, i)
            && m.deps == n.deps + Gains(n, gs) && m.inputs == n.inputs + GainedInputs(ns, n, gs)
            && m.kind == n.kind && m.unit == n.unit && m.depth == n.depth && m.gate == n.gate
            && m.terminal == n.terminal && m.terminalGate == n.terminalGate && m.continuation == n.continuation
            && m.keys == n.keys
  {
  }

  lemma RowIsFinal(ns: seq<Node>, gs: seq<Real>, n: Node)
    ensures |Row(ns, gs, n)| == Width(gs, n.id)
    ensures forall i :: 0 <= i < Width(gs, n.id) ==> Row(ns, gs, n)[i] == Final(ns, gs, n, i)
  {
  }

  lemma {:induction false} OwnUnique(gs: seq<Real>, k: nat)
    requires (forall i, j :: 0 <= i < j < |gs| ==> Anchor(gs[i]) != Anchor(gs[j])) && k < |gs|
    ensures Own(gs, Anchor(gs[k])) == Some(gs[k])
    decreases |gs|
  {
    var last := |gs| - 1;
    if k < last {
      assert Anchor(gs[k]) != Anchor(gs[last]);
      assert gs[..last][k] == gs[k];
      OwnUnique(gs[..last], k);
    }
  }

  lemma FirstLegIsAnchor(ns: seq<Node>, gs: seq<Real>, a: Id)
    requires Realizable(ns, gs) && HasId(ns, a)
    ensures IsLegOf(ns, gs, a, a, 0)
  {
    OwnIs(gs, a);
  }

  /* ---- The nodes of the expansion ---- */

  lemma MemberIsFinal(ns: seq<Node>, gs: seq<Real>, m: Node)
    ensures m in Rows(ns, gs, ns) <==> exists k, i :: 0 <= k < |ns| && 0 <= i < Width(gs, ns[k].id) && m == Final(ns, gs, ns[k], i)
  {
    RowsHold(ns, gs, ns, m);
    if m in Rows(ns, gs, ns) {
      var k :| 0 <= k < |ns| && m in Row(ns, gs, ns[k]);
      RowIsFinal(ns, gs, ns[k]);
      var i :| 0 <= i < |Row(ns, gs, ns[k])| && Row(ns, gs, ns[k])[i] == m;
      assert m == Final(ns, gs, ns[k], i);
    }
    if k, i :| 0 <= k < |ns| && 0 <= i < Width(gs, ns[k].id) && m == Final(ns, gs, ns[k], i) {
      RowIsFinal(ns, gs, ns[k]);
      assert Row(ns, gs, ns[k])[i] == m;
    }
  }

  lemma UniqueJoin(a: seq<Node>, b: seq<Node>)
    requires UniqueIds(a) && UniqueIds(b)
    requires forall i, j :: 0 <= i < |a| && 0 <= j < |b| ==> a[i].id != b[j].id
    ensures UniqueIds(a + b)
  {
    var c := a + b;
    forall i, j | 0 <= i < j < |c| ensures c[i].id != c[j].id {
      if i < |a| && j >= |a| { assert a[i].id != b[j - |a|].id; }
      if i >= |a| { assert b[i - |a|].id != b[j - |a|].id; }
    }
  }

  lemma {:induction false} FinalIdsUnique(ns: seq<Node>, gs: seq<Real>, rest: seq<Node>)
    requires Expandable(ns, gs) && UniqueIds(rest) && forall i :: 0 <= i < |rest| ==> rest[i] in ns
    ensures UniqueIds(Rows(ns, gs, rest))
  {
    if rest != [] {
      var row, later := Row(ns, gs, rest[0]), Rows(ns, gs, rest[1..]);
      FinalIdsUnique(ns, gs, rest[1..]);
      assert rest[0] in ns;
      FindUnique(ns, rest[0]);
      RowIsFinal(ns, gs, rest[0]);
      forall i | 0 <= i < |row| ensures IsLegOf(ns, gs, row[i].id, rest[0].id, i) {
        FinalKeeps(ns, gs, rest[0], i);
      }
      forall j | 0 <= j < |later| ensures exists b, k :: b != rest[0].id && IsLegOf(ns, gs, later[j].id, b, k) {
        LaterLeg(ns, gs, rest, later[j]);
      }
      UniqueJoin(row, later);
    }
  }

  lemma LaterLeg(ns: seq<Node>, gs: seq<Real>, rest: seq<Node>, m: Node)
    requires Realizable(ns, gs) && rest != [] && UniqueIds(rest) && forall i :: 0 <= i < |rest| ==> rest[i] in ns
    requires m in Rows(ns, gs, rest[1..])
    ensures exists b, k :: b != rest[0].id && IsLegOf(ns, gs, m.id, b, k)
  {
    RowsHold(ns, gs, rest[1..], m);
    var t :| 0 <= t < |rest[1..]| && m in Row(ns, gs, rest[1..][t]);
    var n := rest[t + 1];
    RowIsFinal(ns, gs, n);
    var k :| 0 <= k < |Row(ns, gs, n)| && Row(ns, gs, n)[k] == m;
    FinalKeeps(ns, gs, n, k);
    FindUnique(ns, n);
    assert n.id != rest[0].id && IsLegOf(ns, gs, m.id, n.id, k);
  }

  /** The leg with a given name, found in the expansion. */
  lemma FindLeg(ns: seq<Node>, gs: seq<Real>, x: Id, a: Id, i: nat)
    requires Expandable(ns, gs) && IsLegOf(ns, gs, x, a, i)
    ensures UniqueIds(Rows(ns, gs, ns)) && HasId(Rows(ns, gs, ns), x)
    ensures Find(Rows(ns, gs, ns), x) == Final(ns, gs, Find(ns, a), i)
  {
    assert forall k :: 0 <= k < |ns| ==> ns[k] in ns;
    FinalIdsUnique(ns, gs, ns);
    var n := Find(ns, a);
    var k :| 0 <= k < |ns| && ns[k] == n;
    var m := Final(ns, gs, n, i);
    MemberIsFinal(ns, gs, m);
    FinalKeeps(ns, gs, n, i);
    FindUnique(Rows(ns, gs, ns), m);
  }

  lemma EveryNodeIsLeg(ns: seq<Node>, gs: seq<Real>, x: Id)
    requires Expandable(ns, gs) && HasId(Rows(ns, gs, ns), x)
    ensures exists a, i :: IsLegOf(ns, gs, x, a, i)
  {
    var m := Find(Rows(ns, gs, ns), x);
    MemberIsFinal(ns, gs, m);
    var k, i :| 0 <= k < |ns| && 0 <= i < Width(gs, ns[k].id) && m == Final(ns, gs, ns[k], i);
    FinalKeeps(ns, gs, ns[k], i);
    FindUnique(ns, ns[k]);
    assert IsLegOf(ns, gs, x, ns[k].id, i);
  }

  /* ---- Edges ---- */

  lemma EdgeDown(ns: seq<Node>, gs: seq<Real>, n: Node, y: Id, b: Id, j: nat)
    requires Expandable(ns, gs) && n in ns && IsLegOf(ns, gs, y, b, j) && (y in n.deps || y in Gains(n, gs))
    ensures b in n.deps
  {
    if y in n.deps {
      FirstLegIsAnchor(ns, gs, y);
    } else {
      GainsAre(n, gs, y);
      var k :| 0 <= k < |gs| && Anchor(gs[k]) in n.deps && y in NewIds(Anchor(gs[k]), gs[k].legs);
      NewIdIsLeg(ns, gs, k, y, b, j);
    }
  }

  lemma EdgeUp(ns: seq<Node>, gs: seq<Real>, n: Node, y: Id, b: Id, j: nat)
    requires IsLegOf(ns, gs, y, b, j) && b in n.deps
    ensures y in n.deps || y in Gains(n, gs)
  {
    OwnIs(gs, b);
    if j > 0 {
      GainsAre(n, gs, y);
      var r := Own(gs, b).value;
      var k :| 0 <= k < |gs| && gs[k] == r;
      assert NewIds(b, r.legs)[j - 1] == y;
    }
  }

  /** A leg depends on a leg exactly if its node depends on the other's node; so a consumer of an
      anchor depends on all of the anchor's legs. */
  lemma LegEdges(ns: seq<Node>, gs: seq<Real>, n: Node, y: Id, b: Id, j: nat)
    requires Expandable(ns, gs) && n in ns && IsLegOf(ns, gs, y, b, j)
    ensures y in n.deps + Gains(n, gs) <==> b in n.deps
  {
    if y in n.deps || y in Gains(n, gs) { EdgeDown(ns, gs, n, y, b, j); }
    if b in n.deps { EdgeUp(ns, gs, n, y, b, j); }
  }

  lemma NewIdIsLeg(ns: seq<Node>, gs: seq<Real>, k: nat, y: Id, b: Id, j: nat)
    requires Expandable(ns, gs) && k < |gs| && y in NewIds(Anchor(gs[k]), gs[k].legs) && IsLegOf(ns, gs, y, b, j)
    ensures b == Anchor(gs[k])
  {
    var c := Anchor(gs[k]);
    OwnUnique(gs, k);
    var t :| 0 <= t < |NewIds(c, gs[k].legs)| && NewIds(c, gs[k].legs)[t] == y;
    assert IsLegOf(ns, gs, y, c, t + 1);
  }

  /** The node a name of the expansion stands for. */
  ghost function Origin(ns: seq<Node>, gs: seq<Real>, x: Id): Id {
    if exists a, i :: IsLegOf(ns, gs, x, a, i) then
      var a, i :| IsLegOf(ns, gs, x, a, i);
      a
    else x
  }

  lemma OriginIs(ns: seq<Node>, gs: seq<Real>, x: Id, a: Id, i: nat)
    requires Expandable(ns, gs) && IsLegOf(ns, gs, x, a, i)
    ensures Origin(ns, gs, x) == a
  {
  }

  ghost function Onto(ns: seq<Node>, gs: seq<Real>): Id -> Id {
    (x: Id) => Origin(ns, gs, x)
  }

  lemma LegEdge(ns: seq<Node>, gs: seq<Real>, x: Id, y: Id)
    requires Expandable(ns, gs)
    requires x in DepGraph(Rows(ns, gs, ns)) && y in DepGraph(Rows(ns, gs, ns))
    ensures Edge(DepGraph(Rows(ns, gs, ns)), x, y) <==> Edge(DepGraph(ns), Origin(ns, gs, x), Origin(ns, gs, y))
  {
    EveryNodeIsLeg(ns, gs, x);
    EveryNodeIsLeg(ns, gs, y);
    var a, i :| IsLegOf(ns, gs, x, a, i);
    var b, j :| IsLegOf(ns, gs, y, b, j);
    OriginIs(ns, gs, x, a, i);
    OriginIs(ns, gs, y, b, j);
    FindLeg(ns, gs, x, a, i);
    FinalKeeps(ns, gs, Find(ns, a), i);
    LegEdges(ns, gs, Find(ns, a), y, b, j);
  }

  lemma DepsOfLegKnown(ns: seq<Node>, gs: seq<Real>, n: Node, d: Id)
    requires Expandable(ns, gs) && n in ns && d in n.deps + Gains(n, gs)
    ensures HasId(Rows(ns, gs, ns), d)
  {
    if d in n.deps {
      FirstLegIsAnchor(ns, gs, d);
      FindLeg(ns, gs, d, d, 0);
    } else {
      GainsAre(n, gs, d);
      var k :| 0 <= k < |gs| && Anchor(gs[k]) in n.deps && d in NewIds(Anchor(gs[k]), gs[k].legs);
      NewIdKnown(ns, gs, k, d);
    }
  }

  lemma NewIdKnown(ns: seq<Node>, gs: seq<Real>, k: nat, d: Id)
    requires Expandable(ns, gs) && k < |gs| && d in NewIds(Anchor(gs[k]), gs[k].legs)
    ensures HasId(Rows(ns, gs, ns), d)
  {
    OwnUnique(gs, k);
    var c := Anchor(gs[k]);
    var t :| 0 <= t < |NewIds(c, gs[k].legs)| && NewIds(c, gs[k].legs)[t] == d;
    FindLeg(ns, gs, d, c, t + 1);
  }

  lemma ExpansionClosed(ns: seq<Node>, gs: seq<Real>)
    requires Expandable(ns, gs)
    ensures Closed(DepGraph(Rows(ns, gs, ns)))
  {
    var g := DepGraph(Rows(ns, gs, ns));
    forall x, d | x in g && d in g[x] ensures d in g {
      EveryNodeIsLeg(ns, gs, x);
      var a, i :| IsLegOf(ns, gs, x, a, i);
      FindLeg(ns, gs, x, a, i);
      FinalKeeps(ns, gs, Find(ns, a), i);
      DepsOfLegKnown(ns, gs, Find(ns, a), d);
    }
  }

  lemma RecipeClosed(ns: seq<Node>)
    requires KnownDeps(ns)
    ensures Closed(DepGraph(ns))
  {
    var g := DepGraph(ns);
    forall x, d | x in g && d in g[x] ensures d in g {
      var n := Find(ns, x);
      var i :| 0 <= i < |ns| && ns[i] == n;
    }
  }

  lemma StandsForNode(ns: seq<Node>, gs: seq<Real>, x: Id)
    requires Expandable(ns, gs) && x in DepGraph(Rows(ns, gs, ns))
    ensures Origin(ns, gs, x) in DepGraph(ns)
  {
    EveryNodeIsLeg(ns, gs, x);
    var a, i :| IsLegOf(ns, gs, x, a, i);
    OriginIs(ns, gs, x, a, i);
  }

  lemma NodeIsStoodFor(ns: seq<Node>, gs: seq<Real>, a: Id)
    requires Expandable(ns, gs) && a in DepGraph(ns)
    ensures a in DepGraph(Rows(ns, gs, ns)) && Origin(ns, gs, a) == a
  {
    FirstLegIsAnchor(ns, gs, a);
    FindLeg(ns, gs, a, a, 0);
    OriginIs(ns, gs, a, a, 0);
  }

  /** The expanded graph collapses onto the recipe's graph. */
  lemma ExpansionCollapses(ns: seq<Node>, gs: seq<Real>)
    requires Expandable(ns, gs)
    ensures Collapses(DepGraph(Rows(ns, gs, ns)), DepGraph(ns), Onto(ns, gs), (a: Id) => a)
  {
    ExpansionClosed(ns, gs);
    RecipeClosed(ns);
    var onto, back := Onto(ns, gs), (a: Id) => a;
    CollapseParts(ns, gs, DepGraph(Rows(ns, gs, ns)), DepGraph(ns), onto, back);
  }

  lemma CollapseParts(ns: seq<Node>, gs: seq<Real>, fine: Graph<Id>, coarse: Graph<Id>, onto: Id -> Id, back: Id -> Id)
    requires Expandable(ns, gs) && fine == DepGraph(Rows(ns, gs, ns)) && coarse == DepGraph(ns)
    requires Closed(fine) && Closed(coarse)
    requires forall x :: onto(x) == Origin(ns, gs, x)
    requires forall a :: back(a) == a
    ensures Collapses(fine, coarse, onto, back)
  {
    forall x | x in fine ensures onto(x) in coarse { StandsForNode(ns, gs, x); }
    forall a | a in coarse ensures back(a) in fine && onto(back(a)) == a { NodeIsStoodFor(ns, gs, a); }
    forall x, y | x in fine && y in fine ensures Edge(fine, x, y) <==> Edge(coarse, onto(x), onto(y)) {
      LegEdge(ns, gs, x, y);
    }
  }
}
