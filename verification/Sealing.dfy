/** Sealing the contract of an expanded recipe: exactly when it succeeds, and what it then holds. */
module Sealing {
  import opened Prelude
  import opened Lists
  import opened Graph
  import opened RouteNodes
  import opened Scopes
  import opened Expansion
  import opened ExpansionForm
  import opened ExpansionMeaning
  import opened ExpansionTheorems
  import opened WorkflowContract
  import opened Schedule
  import opened LegNames
  import opened ExpansionSteps

  /* ---- The condition, on the recipe ---- */

  /** `a` gives out the name `x`: its own, or that of a leg that is added to it at the tier. */
  predicate Carries(ns: seq<Node>, groups: seq<Group>, tier: Tier, x: Id, a: Id)
    requires ValidGroups(groups, tier)
  {
    HasId(ns, a) && (x == a || exists k :: 0 <= k < |groups| && groups[k].node == a && x in NewIds(a, RealLegs(groups[k], tier)))
  }

  /** Whoever gives out one name agrees on whether it has dependents. */
  ghost predicate CarriersAgree(ns: seq<Node>, groups: seq<Group>, tier: Tier)
    requires ValidGroups(groups, tier)
  {
    forall x, a, b :: Carries(ns, groups, tier, x, a) && Carries(ns, groups, tier, x, b) ==> (HasDependent(ns, a) <==> HasDependent(ns, b))
  }

  /** A recipe the validator accepts. */
  ghost predicate ValidRecipeGraph(ns: seq<Node>, groups: seq<Group>, tier: Tier) {
    ValidatedGraph(ns) && Checked(ns, groups, tier)
  }

  /* ---- What a node wants ---- */

  /** A node that names how it continues wants dependents; the others want none. */
  predicate Suits(nodes: seq<Node>, m: Node) {
    m.continuation.Some? <==> HasDependent(nodes, m.id)
  }

  predicate AllSuit(nodes: seq<Node>) {
    forall i :: 0 <= i < |nodes| ==> Suits(nodes, nodes[i])
  }

  lemma CopySeals(m: Node, n: Node, was: bool, sink: bool)
    requires SameCore(m, n) && Stands(n, was) && n.gate != ""
    ensures Seals(m, sink) <==> sink == m.continuation.None?
    ensures Stands(m, sink) <==> sink == m.continuation.None?
    ensures m.continuation.None? <==> was
  {
  }

  /** An expansion of a validated recipe can be sealed, and stands by the validator's rules, exactly
      if its nodes have the dependents they want. */
  lemma SealsIfSuits(ns: seq<Node>, groups: seq<Group>, tier: Tier)
    requires ValidRecipeGraph(ns, groups, tier)
    ensures var final := Expand(ns, groups, tier);
            (AllSeal(final) <==> AllSuit(final)) && (AllStand(final) <==> AllSuit(final))
  {
    var final := Expand(ns, groups, tier);
    forall i | 0 <= i < |final|
      ensures Seals(final[i], !HasDependent(final, final[i].id)) <==> Suits(final, final[i])
      ensures Stands(final[i], !HasDependent(final, final[i].id)) <==> Suits(final, final[i])
    {
      var n := ExpandFromCore(ns, groups, tier, final[i]);
      var k :| 0 <= k < |ns| && ns[k] == n;
      assert Stands(ns[k], !HasDependent(ns, ns[k].id));
      CopySeals(final[i], n, !HasDependent(ns, n.id), !HasDependent(final, final[i].id));
    }
    SealsAre(final);
  }

  lemma SealsAre(final: seq<Node>)
    requires forall i :: 0 <= i < |final| ==> (Seals(final[i], !HasDependent(final, final[i].id)) <==> Suits(final, final[i]))
    requires forall i :: 0 <= i < |final| ==> (Stands(final[i], !HasDependent(final, final[i].id)) <==> Suits(final, final[i]))
    ensures (AllSeal(final) <==> AllSuit(final)) && (AllStand(final) <==> AllSuit(final))
  {
  }

  /* ---- Agreement suffices ---- */

  /** The wish of a name: that of whoever gives it out. */
  ghost function Wish(ns: seq<Node>, groups: seq<Group>, tier: Tier, x: Id): bool
    requires ValidGroups(groups, tier)
  {
    exists a :: Carries(ns, groups, tier, x, a) && HasDependent(ns, a)
  }

  lemma WishOf(ns: seq<Node>, groups: seq<Group>, tier: Tier, x: Id, a: Id)
    requires ValidGroups(groups, tier) && CarriersAgree(ns, groups, tier) && Carries(ns, groups, tier, x, a)
    ensures Wish(ns, groups, tier, x) <==> HasDependent(ns, a)
  {
  }

  /** Nodes want what their names wish, and dependencies are only on names that wish it. */
  ghost predicate Follows(nodes: seq<Node>, wish: Id -> bool) {
    forall i :: 0 <= i < |nodes| ==> NodeFollows(nodes[i], wish)
  }

  ghost predicate NodeFollows(n: Node, wish: Id -> bool) {
    (n.continuation.Some? <==> wish(n.id)) && forall d :: d in n.deps ==> wish(d)
  }

  lemma MadeFollows(m: Node, n: Node, base: Node, g: Group, legs: seq<LegSpec>, wish: Id -> bool)
    requires legs != [] && Made(m, n, base, g, legs) && NodeFollows(n, wish)
    requires forall x :: x in NewIds(base.id, legs) ==> wish(x) == wish(base.id)
    ensures NodeFollows(m, wish)
  {
    if m != Consume(n, base, legs) {
      var i :| 0 <= i < |legs| && m == MakeLeg(n, g, legs, i);
      if i > 0 { assert NewIds(base.id, legs)[i - 1] == m.id; }
    }
  }

  lemma OneFollows(nodes: seq<Node>, g: Group, tier: Tier, wish: Id -> bool)
    requires ValidGroup(g, tier) && Follows(nodes, wish)
    requires forall x :: x in NewIds(g.node, RealLegs(g, tier)) ==> wish(x) == wish(g.node)
    ensures Follows(ExpandOne(nodes, g, tier), wish)
  {
    var legs, after := RealLegs(g, tier), ExpandOne(nodes, g, tier);
    if legs != [] && HasId(nodes, g.node) {
      var base := Find(nodes, g.node);
      forall i | 0 <= i < |after| ensures NodeFollows(after[i], wish) {
        StepMember(nodes, base, g, legs, after[i]);
        var k :| 0 <= k < |nodes| && Made(after[i], nodes[k], base, g, legs);
        MadeFollows(after[i], nodes[k], base, g, legs, wish);
      }
    }
  }

  /** Every added name wishes what its anchor wishes. */
  ghost predicate WishesFit(groups: seq<Group>, tier: Tier, wish: Id -> bool)
    requires ValidGroups(groups, tier)
  {
    forall k, x :: 0 <= k < |groups| && x in NewIds(groups[k].node, RealLegs(groups[k], tier)) ==> wish(x) == wish(groups[k].node)
  }

  lemma {:induction false} AllFollow(nodes: seq<Node>, groups: seq<Group>, tier: Tier, wish: Id -> bool)
    requires ValidGroups(groups, tier) && Follows(nodes, wish) && WishesFit(groups, tier, wish)
    ensures Follows(Expand(nodes, groups, tier), wish)
    decreases |groups|
  {
    if groups != [] {
      OneFollows(nodes, groups[0], tier, wish);
      assert forall k :: 0 <= k < |groups[1..]| ==> groups[1..][k] == groups[k + 1];
      AllFollow(ExpandOne(nodes, groups[0], tier), groups[1..], tier, wish);
    }
  }

  lemma DependsStays(nodes: seq<Node>, groups: seq<Group>, tier: Tier, y: Id, x: Id)
    requires ValidGroups(groups, tier) && DependsOn(nodes, y, x)
    ensures DependsOn(Expand(nodes, groups, tier), y, x)
  {
    var k :| 0 <= k < |nodes| && nodes[k].id == y && x in nodes[k].deps;
    var m := ExpandKeeps(nodes, groups, tier, nodes[k]);
    var final := Expand(nodes, groups, tier);
    var t :| 0 <= t < |final| && final[t] == m;
  }

  lemma OneDependsStays(nodes: seq<Node>, g: Group, tier: Tier, y: Id, x: Id)
    requires ValidGroup(g, tier) && DependsOn(nodes, y, x)
    ensures DependsOn(ExpandOne(nodes, g, tier), y, x)
  {
    var k :| 0 <= k < |nodes| && nodes[k].id == y && x in nodes[k].deps;
    var m := OneKeeps(nodes, g, tier, nodes[k]);
    var after := ExpandOne(nodes, g, tier);
    var t :| 0 <= t < |after| && after[t] == m;
  }

  /** A node that depends on the anchor and is not named like it comes to depend on every added leg. */
  lemma OneLegDepends(nodes: seq<Node>, g: Group, tier: Tier, y: Id, x: Id)
    requires ValidGroup(g, tier) && HasId(nodes, g.node) && y != g.node
    requires DependsOn(nodes, y, g.node) && x in NewIds(g.node, RealLegs(g, tier))
    ensures DependsOn(ExpandOne(nodes, g, tier), y, x)
  {
    var legs, base := RealLegs(g, tier), Find(nodes, g.node);
    var k :| 0 <= k < |nodes| && nodes[k].id == y && g.node in nodes[k].deps;
    var m := StepKeeps(nodes, base, g, legs, nodes[k]);
    assert m == Consume(nodes[k], base, legs);
    var after := ExpandOne(nodes, g, tier);
    var t :| 0 <= t < |after| && after[t] == m;
  }

  lemma HasIdStays(nodes: seq<Node>, g: Group, tier: Tier, x: Id)
    requires ValidGroup(g, tier) && HasId(nodes, x)
    ensures HasId(ExpandOne(nodes, g, tier), x)
  {
    var i :| 0 <= i < |nodes| && nodes[i].id == x;
    var m := OneKeeps(nodes, g, tier, nodes[i]);
    var after := ExpandOne(nodes, g, tier);
    var t :| 0 <= t < |after| && after[t] == m;
  }

  lemma LegDependsNow(nodes: seq<Node>, g: Group, rest: seq<Group>, tier: Tier, y: Id, x: Id)
    requires ValidGroup(g, tier) && ValidGroups(rest, tier) && HasId(nodes, g.node) && y != g.node
    requires DependsOn(nodes, y, g.node) && x in NewIds(g.node, RealLegs(g, tier))
    ensures DependsOn(Expand(ExpandOne(nodes, g, tier), rest, tier), y, x)
  {
    OneLegDepends(nodes, g, tier, y, x);
    DependsStays(ExpandOne(nodes, g, tier), rest, tier, y, x);
  }

  lemma {:induction false} LegDepends(nodes: seq<Node>, groups: seq<Group>, tier: Tier, k: nat, y: Id, x: Id, a: Id)
    requires ValidGroups(groups, tier) && k < |groups| && groups[k].node == a && HasId(nodes, a) && y != a
    requires DependsOn(nodes, y, a) && x in NewIds(a, RealLegs(groups[k], tier))
    ensures DependsOn(Expand(nodes, groups, tier), y, x)
    decreases |groups|
  {
    var g, rest := groups[0], groups[1..];
    if k == 0 {
      LegDependsNow(nodes, g, rest, tier, y, x);
    } else {
      var after := ExpandOne(nodes, g, tier);
      HasIdStays(nodes, g, tier, a);
      OneDependsStays(nodes, g, tier, y, a);
      assert rest[k - 1] == groups[k];
      LegDepends(after, rest, tier, k - 1, y, x, a);
    }
  }

  lemma DependentOf(nodes: seq<Node>, x: Id) returns (y: Id)
    requires HasDependent(nodes, x)
    ensures DependsOn(nodes, y, x)
  {
    var i :| 0 <= i < |nodes| && x in nodes[i].deps;
    y := nodes[i].id;
  }

  /** A node of the recipe that depends on `a` comes to depend on every name `a` gives out. */
  lemma CarriedDepends(ns: seq<Node>, groups: seq<Group>, tier: Tier, y: Id, x: Id, a: Id)
    requires Checked(ns, groups, tier) && Carries(ns, groups, tier, x, a) && DependsOn(ns, y, a)
    ensures DependsOn(Expand(ns, groups, tier), y, x)
  {
    DependsStays(ns, groups, tier, y, a);
    if x != a {
      var k :| 0 <= k < |groups| && groups[k].node == a && x in NewIds(a, RealLegs(groups[k], tier));
      LegDepends(ns, groups, tier, k, y, x, a);
    }
  }

  lemma RecipeFollows(ns: seq<Node>, groups: seq<Group>, tier: Tier, wish: Id -> bool)
    requires ValidRecipeGraph(ns, groups, tier) && CarriersAgree(ns, groups, tier)
    requires forall x :: wish(x) <==> Wish(ns, groups, tier, x)
    ensures Follows(ns, wish) && WishesFit(groups, tier, wish)
  {
    forall i | 0 <= i < |ns| ensures NodeFollows(ns[i], wish) {
      assert Stands(ns[i], !HasDependent(ns, ns[i].id));
      WishOf(ns, groups, tier, ns[i].id, ns[i].id);
      forall d | d in ns[i].deps ensures wish(d) {
        assert Carries(ns, groups, tier, d, d) && HasDependent(ns, d);
      }
    }
    forall k, x | 0 <= k < |groups| && x in NewIds(groups[k].node, RealLegs(groups[k], tier)) ensures wish(x) == wish(groups[k].node) {
      var a := groups[k].node;
      assert HasId(ns, a) && Carries(ns, groups, tier, x, a) && Carries(ns, groups, tier, a, a);
      WishOf(ns, groups, tier, x, a);
      WishOf(ns, groups, tier, a, a);
    }
  }

  lemma AgreementSuits(ns: seq<Node>, groups: seq<Group>, tier: Tier)
    requires ValidRecipeGraph(ns, groups, tier) && CarriersAgree(ns, groups, tier)
    ensures AllSuit(Expand(ns, groups, tier))
  {
    var final := Expand(ns, groups, tier);
    var wish := WishIn(ns, groups, tier);
    RecipeFollows(ns, groups, tier, wish);
    AllFollow(ns, groups, tier, wish);
    forall i | 0 <= i < |final| ensures Suits(final, final[i]) {
      var x := final[i].id;
      assert NodeFollows(final[i], wish);
      if wish(x) { WishedHas(ns, groups, tier, x); }
      if HasDependent(final, x) {
        var j :| 0 <= j < |final| && x in final[j].deps;
        assert NodeFollows(final[j], wish);
      }
    }
  }

  ghost function WishIn(ns: seq<Node>, groups: seq<Group>, tier: Tier): Id -> bool
    requires ValidGroups(groups, tier)
  {
    (x: Id) requires ValidGroups(groups, tier) => Wish(ns, groups, tier, x)
  }

  lemma WishedHas(ns: seq<Node>, groups: seq<Group>, tier: Tier, x: Id)
    requires Checked(ns, groups, tier) && Wish(ns, groups, tier, x)
    ensures HasDependent(Expand(ns, groups, tier), x)
  {
    var a :| Carries(ns, groups, tier, x, a) && HasDependent(ns, a);
    var y := DependentOf(ns, a);
    CarriedDepends(ns, groups, tier, y, x, a);
    var final := Expand(ns, groups, tier);
    var k :| 0 <= k < |final| && final[k].id == y && x in final[k].deps;
  }

  /* ---- Agreement is needed ---- */

  /** Some carrier of an added name continues as some carrier of its anchor's name does. */
  lemma {:induction false} LegContinues(nodes: seq<Node>, groups: seq<Group>, tier: Tier, k: nat, x: Id) returns (m: Node, b: Node)
    requires ValidGroups(groups, tier) && k < |groups| && HasId(nodes, groups[k].node)
    requires x in NewIds(groups[k].node, RealLegs(groups[k], tier))
    ensures m in Expand(nodes, groups, tier) && m.id == x
    ensures b in Expand(nodes, groups, tier) && b.id == groups[k].node && m.continuation == b.continuation
    decreases |groups|
  {
    var after := ExpandOne(nodes, groups[0], tier);
    if k == 0 {
      var leg, first := FirstLegs(nodes, groups[0], tier, x);
      m := ExpandKeeps(after, groups[1..], tier, leg);
      b := ExpandKeeps(after, groups[1..], tier, first);
    } else {
      HasIdStays(nodes, groups[0], tier, groups[k].node);
      assert groups[1..][k - 1] == groups[k];
      m, b := LegContinues(after, groups[1..], tier, k - 1, x);
    }
  }

  lemma NewIdIs(base: Id, legs: seq<LegSpec>, x: Id) returns (i: nat)
    requires x in NewIds(base, legs)
    ensures 0 < i < |legs| && LegName(base, legs, i) == x
  {
    var t :| 0 <= t < |NewIds(base, legs)| && NewIds(base, legs)[t] == x;
    i := t + 1;
  }

  lemma FirstLegs(nodes: seq<Node>, g: Group, tier: Tier, x: Id) returns (leg: Node, first: Node)
    requires ValidGroup(g, tier) && HasId(nodes, g.node) && x in NewIds(g.node, RealLegs(g, tier))
    ensures leg in ExpandOne(nodes, g, tier) && leg.id == x
    ensures first in ExpandOne(nodes, g, tier) && first.id == g.node && leg.continuation == first.continuation
  {
    var legs, base := RealLegs(g, tier), Find(nodes, g.node);
    var i := NewIdIs(g.node, legs, x);
    var n := LegsIn(nodes, base, g, legs);
    leg, first := MakeLeg(n, g, legs, i), MakeLeg(n, g, legs, 0);
    assert ExpandOne(nodes, g, tier) == StepAll(nodes, base, g, legs);
  }

  /** The first node of the anchor's name has all its legs in the result. */
  lemma {:induction false} LegsIn(nodes: seq<Node>, base: Node, g: Group, legs: seq<LegSpec>) returns (n: Node)
    requires legs != [] && HasId(nodes, base.id)
    ensures n.id == base.id && forall i :: 0 <= i < |legs| ==> MakeLeg(n, g, legs, i) in StepAll(nodes, base, g, legs)
  {
    if nodes[0].id == base.id {
      n := nodes[0];
      forall i | 0 <= i < |legs| ensures MakeLeg(n, g, legs, i) in StepAll(nodes, base, g, legs) {
        assert Legs(n, g, legs, 0)[i] == MakeLeg(n, g, legs, i);
        assert MakeLeg(n, g, legs, i) in Legs(n, g, legs, 0);
      }
    } else {
      assert HasId(nodes[1..], base.id) by {
        var i :| 0 <= i < |nodes| && nodes[i].id == base.id;
        assert nodes[1..][i - 1].id == base.id;
      }
      n := LegsIn(nodes[1..], base, g, legs);
    }
  }

  lemma RecipeNodeSuits(ns: seq<Node>, groups: seq<Group>, tier: Tier, a: Id)
    requires ValidRecipeGraph(ns, groups, tier) && AllSuit(Expand(ns, groups, tier)) && HasId(ns, a)
    ensures HasDependent(Expand(ns, groups, tier), a) <==> HasDependent(ns, a)
  {
    var i :| 0 <= i < |ns| && ns[i].id == a;
    var m := ExpandKeeps(ns, groups, tier, ns[i]);
    var final := Expand(ns, groups, tier);
    var t :| 0 <= t < |final| && final[t] == m;
    assert Suits(final, final[t]) && Stands(ns[i], !HasDependent(ns, a));
  }

  lemma SameWish(final: seq<Node>, m: Node, b: Node)
    requires AllSuit(final) && m in final && b in final && m.continuation == b.continuation
    ensures HasDependent(final, m.id) <==> HasDependent(final, b.id)
  {
    var t :| 0 <= t < |final| && final[t] == m;
    var u :| 0 <= u < |final| && final[u] == b;
    assert Suits(final, final[t]) && Suits(final, final[u]);
  }

  /** Where all nodes suit, a name has dependents exactly if whoever gives it out had some. */
  lemma CarrierSuits(ns: seq<Node>, groups: seq<Group>, tier: Tier, x: Id, a: Id)
    requires ValidRecipeGraph(ns, groups, tier) && AllSuit(Expand(ns, groups, tier)) && Carries(ns, groups, tier, x, a)
    ensures HasDependent(Expand(ns, groups, tier), x) <==> HasDependent(ns, a)
  {
    RecipeNodeSuits(ns, groups, tier, a);
    if x != a {
      var k :| 0 <= k < |groups| && groups[k].node == a && x in NewIds(a, RealLegs(groups[k], tier));
      var m, b := LegContinues(ns, groups, tier, k, x);
      SameWish(Expand(ns, groups, tier), m, b);
    }
  }

  /** The expansion of a validated recipe can be sealed exactly if whoever gives out one name agrees
      on whether it has dependents, whether or not such a name is an anchor's. */
  lemma SealsExactly(ns: seq<Node>, groups: seq<Group>, tier: Tier)
    requires ValidRecipeGraph(ns, groups, tier)
    ensures var final := Expand(ns, groups, tier);
            (AllSeal(final) <==> CarriersAgree(ns, groups, tier)) && (AllStand(final) <==> CarriersAgree(ns, groups, tier))
  {
    SealsIfSuits(ns, groups, tier);
    if CarriersAgree(ns, groups, tier) { AgreementSuits(ns, groups, tier); }
    if AllSuit(Expand(ns, groups, tier)) {
      forall x, a, b | Carries(ns, groups, tier, x, a) && Carries(ns, groups, tier, x, b) ensures HasDependent(ns, a) <==> HasDependent(ns, b) {
        CarrierSuits(ns, groups, tier, x, a);
        CarrierSuits(ns, groups, tier, x, b);
      }
    }
  }

  /** With fresh leg names nobody shares a name, so sealing succeeds. */
  lemma SoundAgrees(ns: seq<Node>, groups: seq<Group>, tier: Tier)
    requires ValidRecipeGraph(ns, groups, tier) && Sound(ns, groups, tier)
    ensures CarriersAgree(ns, groups, tier)
  {
    ExpandedStands(ns, groups, tier);
    SealsExactly(ns, groups, tier);
  }

  /* ---- Paths to a terminal ---- */

  function DepsIn(n: Node, x: Id): seq<Id> {
    if n.id == x then n.deps else []
  }

  function DepsFor(x: Id): Node -> seq<Id> {
    (n: Node) => DepsIn(n, x)
  }

  /** The dependencies between names: what any node of a name depends on. */
  function NameGraph(nodes: seq<Node>): Graph<Id> {
    map x | x in Ids(nodes) :: Concat(nodes, DepsFor(x))
  }

  lemma NameEdge(nodes: seq<Node>, y: Id, x: Id)
    ensures Edge(NameGraph(nodes), y, x) <==> DependsOn(nodes, y, x)
  {
    InConcat(nodes, DepsFor(y), x);
    if DependsOn(nodes, y, x) {
      var k :| 0 <= k < |nodes| && nodes[k].id == y && x in nodes[k].deps;
      assert x in DepsFor(y)(nodes[k]);
    }
    if Edge(NameGraph(nodes), y, x) {
      var k :| 0 <= k < |nodes| && x in DepsFor(y)(nodes[k]);
    }
  }

  lemma MoreEdgesReach<T(!new)>(g: Graph<T>, h: Graph<T>, a: T, b: T)
    requires Reaches(g, a, b) && forall x, y :: Edge(g, x, y) ==> Edge(h, x, y)
    ensures Reaches(h, a, b)
  {
    var p :| PathFrom(g, p, a, b) && |p| >= 2;
    assert PathFrom(h, p, a, b);
  }

  /** Every name of the expansion is given out by a node of the recipe. */
  lemma SomeCarrier(ns: seq<Node>, groups: seq<Group>, tier: Tier, x: Id) returns (a: Id)
    requires Checked(ns, groups, tier) && HasId(Expand(ns, groups, tier), x)
    ensures Carries(ns, groups, tier, x, a)
  {
    ExpandIds(ns, groups, tier);
    HasIdIs(Expand(ns, groups, tier), x);
    HasIdIs(ns, x);
    if HasId(ns, x) {
      a := x;
    } else {
      assert x in multiset(IdsOf(ns) + NewNames(groups, tier));
      assert x in NewNames(groups, tier);
      var k := SomeGroup(groups, tier, x);
      a := groups[k].node;
    }
  }

  lemma SomeGroup(groups: seq<Group>, tier: Tier, x: Id) returns (k: nat)
    requires ValidGroups(groups, tier) && x in NewNames(groups, tier)
    ensures k < |groups| && x in NewIds(groups[k].node, RealLegs(groups[k], tier))
  {
    var gs := Realized(groups, tier);
    InConcat(gs, NewNamesOf(), x);
    var j :| 0 <= j < |gs| && x in NewNamesOf()(gs[j]);
    RealizedFrom(groups, tier, gs[j]);
    k :| 0 <= k < |groups| && gs[j].group == groups[k] && gs[j].legs == RealLegs(groups[k], tier);
  }

  lemma RecipeEdgesStay(ns: seq<Node>, groups: seq<Group>, tier: Tier)
    requires ValidRecipeGraph(ns, groups, tier)
    ensures forall y, x :: Edge(DepGraph(ns), y, x) ==> Edge(NameGraph(Expand(ns, groups, tier)), y, x)
  {
    forall y, x | Edge(DepGraph(ns), y, x) ensures Edge(NameGraph(Expand(ns, groups, tier)), y, x) {
      var n := Find(ns, y);
      var k :| 0 <= k < |ns| && ns[k] == n;
      assert DependsOn(ns, y, x);
      DependsStays(ns, groups, tier, y, x);
      NameEdge(Expand(ns, groups, tier), y, x);
    }
  }

  /** A sink of the recipe that a carried name leads to, and the way there. */
  lemma WayToSink(ns: seq<Node>, groups: seq<Group>, tier: Tier, x: Id, a: Id) returns (t: Id)
    requires ValidRecipeGraph(ns, groups, tier) && Carries(ns, groups, tier, x, a) && HasDependent(ns, a)
    ensures IsSink(ns, t) && Reaches(NameGraph(Expand(ns, groups, tier)), t, x)
  {
    var g, h := DepGraph(ns), NameGraph(Expand(ns, groups, tier));
    var y := DependentOf(ns, a);
    var k :| 0 <= k < |ns| && ns[k].id == y && a in ns[k].deps;
    RecipeClosed(ns);
    t := LeadsToSink(g, y);
    DependentIsEdge(ns, t);
    RecipeEdgesStay(ns, groups, tier);
    CarriedDepends(ns, groups, tier, y, x, a);
    NameEdge(Expand(ns, groups, tier), y, x);
    if t != y { MoreEdgesReach(g, h, t, y); }
    EdgeReaches(h, y, x);
    if t != y { Transitive(h, t, y, x); }
  }

  /** Every name of a sealed expansion leads to a terminal. */
  lemma LeadsToTerminal(ns: seq<Node>, groups: seq<Group>, tier: Tier, x: Id) returns (t: Id)
    requires ValidRecipeGraph(ns, groups, tier) && CarriersAgree(ns, groups, tier) && HasId(Expand(ns, groups, tier), x)
    ensures IsSink(Expand(ns, groups, tier), t) && ReachesOrIs(NameGraph(Expand(ns, groups, tier)), t, x)
  {
    var a := SomeCarrier(ns, groups, tier, x);
    AgreementSuits(ns, groups, tier);
    CarrierSuits(ns, groups, tier, x, a);
    if HasDependent(ns, a) {
      t := WayToSink(ns, groups, tier, x, a);
      RecipeNodeSuits(ns, groups, tier, t);
      var i :| 0 <= i < |ns| && ns[i].id == t;
      var m := ExpandKeeps(ns, groups, tier, ns[i]);
      assert HasId(Expand(ns, groups, tier), t) by {
        var k :| 0 <= k < |Expand(ns, groups, tier)| && Expand(ns, groups, tier)[k] == m;
      }
    } else {
      t := x;
    }
  }

  /** Sealing the expansion of a validated recipe: it succeeds exactly if whoever gives out one name
      agrees on having dependents. Then the terminals are exactly the sinks, the continuations cover
      exactly the other names, and every name leads to a terminal. */
  method SealExpanded(ns: seq<Node>, groups: seq<Group>, tier: Tier) returns (r: Result<Contract, ContractError>)
    requires ValidRecipeGraph(ns, groups, tier)
    ensures r.Ok? <==> CarriersAgree(ns, groups, tier)
    ensures r.Ok? ==> ContractFits(Expand(ns, groups, tier), r.value)
    ensures r.Ok? ==> forall x :: HasId(Expand(ns, groups, tier), x) ==>
              exists t :: t in r.value.terminals && ReachesOrIs(NameGraph(Expand(ns, groups, tier)), t, x)
  {
    var nodes := ExpandParallelGroups(ns, groups, tier);
    SealsExactly(ns, groups, tier);
    if CarriersAgree(ns, groups, tier) { SomeTerminal(ns, groups, tier); }
    r := WorkflowContract.WorkflowContract(nodes);
    if r.Ok? {
      forall x | HasId(nodes, x) ensures exists t :: t in r.value.terminals && ReachesOrIs(NameGraph(nodes), t, x) {
        var t := LeadsToTerminal(ns, groups, tier, x);
        SinkIsTerminal(nodes, r.value, t);
      }
    }
  }

  lemma SinkIsTerminal(nodes: seq<Node>, c: Contract, t: Id)
    requires ContractFits(nodes, c) && IsSink(nodes, t)
    ensures t in c.terminals
  {
    var i :| 0 <= i < |nodes| && nodes[i].id == t;
    assert !HasDependent(nodes, nodes[i].id);
  }

  lemma SomeTerminal(ns: seq<Node>, groups: seq<Group>, tier: Tier)
    requires ValidRecipeGraph(ns, groups, tier) && CarriersAgree(ns, groups, tier)
    ensures SomeSink(Expand(ns, groups, tier))
  {
    var nodes := Expand(ns, groups, tier);
    var m := ExpandKeeps(ns, groups, tier, ns[0]);
    assert HasId(nodes, ns[0].id) by {
      var k :| 0 <= k < |nodes| && nodes[k] == m;
    }
    var t := LeadsToTerminal(ns, groups, tier, ns[0].id);
    var i :| 0 <= i < |nodes| && nodes[i].id == t;
  }

  /* ---- Sealing may raise ---- */

  function Stage(id: Id, deps: seq<Id>, last: bool): Node {
    Node(id, ReviewWorker, "", Some(2), Some("m"), deps, ["in"], [id], [id], "gate",
         if last then Some(true) else None, if last then Some("gate") else None,
         if last then None else Some(InlineNext), None, NO_KEYS)
  }

  const STALLING: seq<Node> := [Stage("a", [], true), Stage("a-x", [], false), Stage("b", ["a-x"], true)]

  lemma StallingIsGraph()
    ensures UniqueIds(STALLING) && KnownDeps(STALLING) && HasDependent(STALLING, "a-x")
    ensures !HasDependent(STALLING, "a") && !HasDependent(STALLING, "b")
  {
    assert STALLING[0].id == "a" && STALLING[1].id == "a-x" && STALLING[2].id == "b";
    assert "a-x" in STALLING[2].deps;
  }

  lemma StallingIsAcyclic()
    ensures Acyclic(DepGraph(STALLING))
  {
    var g := DepGraph(STALLING);
    StallingIsGraph();
    forall x, y | Edge(g, x, y) ensures x == "b" && y == "a-x" {
      var n := Find(STALLING, x);
      var k :| 0 <= k < |STALLING| && STALLING[k] == n;
    }
    forall x ensures !Reaches(g, x, x) {
      if Reaches(g, x, x) {
        FirstStep(g, x, x);
        var y :| Edge(g, x, y) && ReachesOrIs(g, y, x);
        if Reaches(g, y, x) { FirstStep(g, y, x); }
      }
    }
  }

  lemma StallingStands()
    ensures AllStand(STALLING) && ContinuationsFine(STALLING, [], [])
  {
    StallingIsGraph();
    forall i | 0 <= i < |STALLING|
      ensures Stands(STALLING[i], !HasDependent(STALLING, STALLING[i].id))
      ensures Waits(STALLING[i], GatesBehind(STALLING, [], STALLING[i].id))
    {
    }
  }

  lemma NamesApart()
    ensures !ScopesOverlap(["a"], ["a-x"]) && !ScopesOverlap(["a"], ["b"]) && !ScopesOverlap(["a-x"], ["b"])
  {
    assert Stem("a") == "a" && Stem("a-x") == "a-x" && Stem("b") == "b";
    assert !RootsOverlap("a", "a-x") && !RootsOverlap("a", "b") && !RootsOverlap("a-x", "b");
  }

  lemma StallingWritesApart()
    ensures WritesApart(STALLING)
  {
    NamesApart();
    assert STALLING[0].scopes == ["a"] && STALLING[1].scopes == ["a-x"] && STALLING[2].scopes == ["b"];
  }

  lemma StallingChecked(tier: Tier)
    requires Rank(tier) >= Rank(Standard)
    ensures Checked(STALLING, [CLASHING_GROUP], tier)
  {
    StallingIsGraph();
    assert [CLASHING_GROUP][0].node == "a" && STALLING[0].id == "a";
  }

  lemma StallingDisagrees(tier: Tier)
    requires Rank(tier) >= Rank(Standard) && ValidGroups([CLASHING_GROUP], tier)
    ensures !CarriersAgree(STALLING, [CLASHING_GROUP], tier)
  {
    StallingIsGraph();
    var legs := RealLegs(CLASHING_GROUP, tier);
    assert legs == CLASHING_GROUP.legs;
    assert NewIds("a", legs)[0] == LegId("a", "x") == "a-x";
    assert HasId(STALLING, "a") && HasId(STALLING, "a-x") by { assert STALLING[0].id == "a" && STALLING[1].id == "a-x"; }
    assert [CLASHING_GROUP][0].node == "a";
    assert Carries(STALLING, [CLASHING_GROUP], tier, "a-x", "a") && Carries(STALLING, [CLASHING_GROUP], tier, "a-x", "a-x");
  }

  lemma ValidFrom(ns: seq<Node>)
    requires ns != [] && UniqueIds(ns) && KnownDeps(ns) && Acyclic(DepGraph(ns)) && AllStand(ns)
    requires forall n :: n in ns ==> n.gate != ""
    ensures ValidatedGraph(ns)
  {
  }

  lemma StallingIsValid()
    ensures ValidatedGraph(STALLING)
  {
    StallingIsGraph();
    StallingIsAcyclic();
    StallingStands();
    StallingGates();
    ValidFrom(STALLING);
  }

  lemma StallingGates()
    ensures STALLING != [] && forall n :: n in STALLING ==> n.gate != ""
  {
  }

  lemma StallingCannotSeal(ns: seq<Node>, groups: seq<Group>, tier: Tier)
    requires ValidRecipeGraph(ns, groups, tier) && !CarriersAgree(ns, groups, tier)
    ensures !AllSeal(Expand(ns, groups, tier))
  {
    SealsExactly(ns, groups, tier);
  }

  /** A recipe that passes the validator's rules on graph, scopes, continuations and groups, and whose
      expansion cannot be sealed: the leg of the sink `a` has the name of a node with a dependent. */
  lemma SealingMayRaise(tier: Tier)
    requires Rank(tier) >= Rank(Standard)
    ensures ValidRecipeGraph(STALLING, [CLASHING_GROUP], tier) && WritesApart(STALLING) && ContinuationsFine(STALLING, [], [])
    ensures !AllSeal(Expand(STALLING, [CLASHING_GROUP], tier))
  {
    StallingIsValid();
    StallingStands();
    StallingWritesApart();
    StallingChecked(tier);
    StallingDisagrees(tier);
    StallingCannotSeal(STALLING, [CLASHING_GROUP], tier);
  }
}
