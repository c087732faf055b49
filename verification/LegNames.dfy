/** Which names the expansion gives out, and when two nodes end up with the same one. */
module LegNames {
  import opened Prelude
  import opened Lists
  import opened Graph
  import opened RouteNodes
  import opened Scopes
  import opened Expansion
  import opened ExpansionForm
  import opened ExpansionMeaning
  import opened ExpansionTheorems
  import opened WorkflowContract
  import opened Schedule

  predicate Distinct(ids: seq<Id>) {
    forall i, j :: 0 <= i < j < |ids| ==> ids[i] != ids[j]
  }

  function NewNamesOf(): Real -> seq<Id> {
    (r: Real) => NewIds(Anchor(r), r.legs)
  }

  /** The names of all legs that are added at the tier; a list that needs the recipe's groups only. */
  function NewNames(groups: seq<Group>, tier: Tier): seq<Id> {
    Concat(Realized(groups, tier), NewNamesOf())
  }

  /** The names of the recipe's nodes and of all added legs. */
  function AllNames(ns: seq<Node>, groups: seq<Group>, tier: Tier): seq<Id> {
    IdsOf(ns) + NewNames(groups, tier)
  }

  /* ---- Names are only added ---- */

  lemma IdsJoin(a: seq<Node>, b: seq<Node>)
    ensures IdsOf(a + b) == IdsOf(a) + IdsOf(b)
  {
  }

  lemma ConsumedIds(nodes: seq<Node>, base: Node, legs: seq<LegSpec>)
    requires legs != []
    ensures IdsOf(ConsumeAll(nodes, base, legs)) == IdsOf(nodes)
  {
  }

  lemma LegsIds(base: Node, g: Group, legs: seq<LegSpec>)
    requires legs != []
    ensures IdsOf(Legs(base, g, legs, 0)) == [base.id] + NewIds(base.id, legs)
  {
  }

  /** One group adds the names of its further legs, whoever carries them already. */
  lemma {:induction false} StepIds(nodes: seq<Node>, base: Node, g: Group, legs: seq<LegSpec>)
    requires legs != [] && HasId(nodes, base.id)
    ensures multiset(IdsOf(StepAll(nodes, base, g, legs))) == multiset(IdsOf(nodes)) + multiset(NewIds(base.id, legs))
  {
    var n, rest := nodes[0], nodes[1..];
    IdsHead(nodes);
    if n.id == base.id {
      AnchorIds(n, rest, base, g, legs);
    } else {
      assert HasId(rest, base.id) by {
        var i :| 0 <= i < |nodes| && nodes[i].id == base.id;
        assert rest[i - 1].id == base.id;
      }
      StepIds(rest, base, g, legs);
      IdsHead([Consume(n, base, legs)] + StepAll(rest, base, g, legs));
    }
  }

  lemma IdsHead(nodes: seq<Node>)
    requires nodes != []
    ensures multiset(IdsOf(nodes)) == multiset{nodes[0].id} + multiset(IdsOf(nodes[1..]))
  {
    assert IdsOf(nodes) == [nodes[0].id] + IdsOf(nodes[1..]);
  }

  lemma AnchorIds(n: Node, rest: seq<Node>, base: Node, g: Group, legs: seq<LegSpec>)
    requires legs != [] && n.id == base.id
    ensures multiset(IdsOf(Legs(n, g, legs, 0) + ConsumeAll(rest, base, legs))) ==
            multiset{n.id} + multiset(IdsOf(rest)) + multiset(NewIds(base.id, legs))
  {
    LegsIds(n, g, legs);
    ConsumedIds(rest, base, legs);
    IdsJoin(Legs(n, g, legs, 0), ConsumeAll(rest, base, legs));
  }

  lemma HasIdIs(nodes: seq<Node>, id: Id)
    ensures HasId(nodes, id) <==> id in multiset(IdsOf(nodes))
  {
    if HasId(nodes, id) {
      var i :| 0 <= i < |nodes| && nodes[i].id == id;
      assert IdsOf(nodes)[i] == id;
    }
  }

  lemma ExpandOneIds(nodes: seq<Node>, g: Group, tier: Tier)
    requires ValidGroup(g, tier) && HasId(nodes, g.node)
    ensures multiset(IdsOf(ExpandOne(nodes, g, tier))) == multiset(IdsOf(nodes)) + multiset(NewIds(g.node, RealLegs(g, tier)))
    ensures forall id :: HasId(nodes, id) ==> HasId(ExpandOne(nodes, g, tier), id)
  {
    var legs := RealLegs(g, tier);
    if legs != [] { StepIds(nodes, Find(nodes, g.node), g, legs); }
    forall id | HasId(nodes, id) ensures HasId(ExpandOne(nodes, g, tier), id) {
      HasIdIs(nodes, id);
      HasIdIs(ExpandOne(nodes, g, tier), id);
    }
  }

  /** The expansion carries exactly the names of the recipe and of the added legs, each as often. */
  lemma {:induction false} ExpandIds(nodes: seq<Node>, groups: seq<Group>, tier: Tier)
    requires ValidGroups(groups, tier) && forall k :: 0 <= k < |groups| ==> HasId(nodes, groups[k].node)
    ensures multiset(IdsOf(Expand(nodes, groups, tier))) == multiset(AllNames(nodes, groups, tier))
    decreases |groups|
  {
    if groups == [] {
      assert AllNames(nodes, [], tier) == IdsOf(nodes);
    } else {
      var after := ExpandOne(nodes, groups[0], tier);
      ExpandOneIds(nodes, groups[0], tier);
      ExpandIds(after, groups[1..], tier);
      NewNamesHead(groups, tier);
    }
  }

  lemma NewNamesHead(groups: seq<Group>, tier: Tier)
    requires groups != [] && ValidGroups(groups, tier)
    ensures NewNames(groups, tier) == NewIds(groups[0].node, RealLegs(groups[0], tier)) + NewNames(groups[1..], tier)
  {
    var legs, rest := RealLegs(groups[0], tier), Realized(groups[1..], tier);
    RealizedHead(groups, tier);
    if legs != [] {
      var all := [Real(groups[0], legs)] + rest;
      assert all[0] == Real(groups[0], legs) && all[1..] == rest;
      assert Concat(all, NewNamesOf()) == NewNamesOf()(all[0]) + Concat(all[1..], NewNamesOf());
    }
  }

  /* ---- The condition ---- */

  lemma {:induction false} DistinctIsOnce(ids: seq<Id>)
    ensures Distinct(ids) <==> forall x :: multiset(ids)[x] <= 1
  {
    if ids != [] {
      var rest := ids[1..];
      assert ids == [ids[0]] + rest;
      assert multiset(ids) == multiset{ids[0]} + multiset(rest);
      DistinctIsOnce(rest);
      if Distinct(ids) {
        assert Distinct(rest) by {
          forall i, j | 0 <= i < j < |rest| ensures rest[i] != rest[j] { assert ids[i + 1] != ids[j + 1]; }
        }
        assert ids[0] !in rest;
      }
      if forall x :: multiset(ids)[x] <= 1 {
        forall x ensures multiset(rest)[x] <= 1 { assert multiset(ids)[x] <= 1; }
        assert multiset(ids)[ids[0]] <= 1;
        assert ids[0] !in multiset(rest);
        forall i, j | 0 <= i < j < |ids| ensures ids[i] != ids[j] {
          if i == 0 { assert rest[j - 1] in multiset(rest); } else { assert rest[i - 1] != rest[j - 1]; }
        }
      }
    }
  }

  lemma UniqueIsDistinct(nodes: seq<Node>)
    ensures UniqueIds(nodes) <==> Distinct(IdsOf(nodes))
  {
    forall i, j | 0 <= i < j < |nodes| ensures nodes[i].id != nodes[j].id <==> IdsOf(nodes)[i] != IdsOf(nodes)[j] {}
    if Distinct(IdsOf(nodes)) {
      forall i, j | 0 <= i < j < |nodes| ensures nodes[i].id != nodes[j].id { assert IdsOf(nodes)[i] != IdsOf(nodes)[j]; }
    }
  }

  /** The expansion has unique ids exactly if the recipe's ids and the names of the added legs are
      all different. */
  lemma LegNamesClashExactly(ns: seq<Node>, groups: seq<Group>, tier: Tier)
    requires ValidGroups(groups, tier) && forall k :: 0 <= k < |groups| ==> HasId(ns, groups[k].node)
    ensures UniqueIds(Expand(ns, groups, tier)) <==> Distinct(AllNames(ns, groups, tier))
  {
    var final := Expand(ns, groups, tier);
    ExpandIds(ns, groups, tier);
    UniqueIsDistinct(final);
    DistinctIsOnce(IdsOf(final));
    DistinctIsOnce(AllNames(ns, groups, tier));
  }

  /* ---- What the other theorems about the expansion assume ---- */

  /** What the recipe validator guarantees of nodes and groups. */
  predicate Checked(ns: seq<Node>, groups: seq<Group>, tier: Tier) {
    && UniqueIds(ns) && KnownDeps(ns) && ValidGroups(groups, tier)
    && (forall i :: 0 <= i < |ns| ==> ns[i].id !in ns[i].deps)
    && (forall k :: 0 <= k < |groups| ==> HasId(ns, groups[k].node))
    && (forall j, k :: 0 <= j < k < |groups| ==> groups[j].node != groups[k].node)
  }

  lemma RealizedAnchors(ns: seq<Node>, groups: seq<Group>, tier: Tier)
    requires Checked(ns, groups, tier)
    ensures var gs := Realized(groups, tier);
            && (forall j, k :: 0 <= j < k < |gs| ==> Anchor(gs[j]) != Anchor(gs[k]))
            && (forall k :: 0 <= k < |gs| ==> |gs[k].legs| >= 2 && HasId(ns, Anchor(gs[k])))
  {
    var gs := Realized(groups, tier);
    var key := (g: Group) => g.node;
    RealizedApart(groups, tier, key);
    forall j, k | 0 <= j < k < |gs| ensures Anchor(gs[j]) != Anchor(gs[k]) { assert key(gs[j].group) != key(gs[k].group); }
    forall k | 0 <= k < |gs| ensures |gs[k].legs| >= 2 && HasId(ns, Anchor(gs[k])) {
      RealizedFrom(groups, tier, gs[k]);
      var j :| 0 <= j < |groups| && gs[k].group == groups[j];
    }
  }

  /** A name occurs in the list of added names as often as it is added. */
  lemma AddedTwice(gs: seq<Real>, k: nat, t: nat, x: Id)
    requires k < |gs| && t < |NewNamesOf()(gs[k])| && NewNamesOf()(gs[k])[t] == x
    ensures multiset(Concat(gs, NewNamesOf()))[x] >= 1
    ensures forall u :: 0 <= u < |NewNamesOf()(gs[k])| && u != t && NewNamesOf()(gs[k])[u] == x ==> multiset(Concat(gs, NewNamesOf()))[x] >= 2
    ensures forall j :: 0 <= j < |gs| && j != k && x in NewNamesOf()(gs[j]) ==> multiset(Concat(gs, NewNamesOf()))[x] >= 2
  {
    var names := NewNamesOf()(gs[k]);
    ConcatWithout(gs, NewNamesOf(), k);
    assert x in multiset(names);
    forall u | 0 <= u < |names| && u != t && names[u] == x ensures multiset(names)[x] >= 2 {
      TwiceInList(names, if t < u then t else u, if t < u then u else t);
    }
    forall j | 0 <= j < |gs| && j != k && x in NewNamesOf()(gs[j]) ensures multiset(Concat(gs, NewNamesOf()))[x] >= 2 {
      var rest := Without(gs, k);
      assert rest[if j < k then j else j - 1] == gs[j];
      InConcat(rest, NewNamesOf(), x);
      assert x in multiset(Concat(rest, NewNamesOf()));
    }
  }

  lemma TwiceInList(names: seq<Id>, t: nat, u: nat)
    requires t < u < |names| && names[t] == names[u]
    ensures multiset(names)[names[t]] >= 2
  {
    assert names == names[..t + 1] + names[t + 1..];
    assert names[t] in multiset(names[..t + 1]) by { assert names[..t + 1][t] == names[t]; }
    assert names[t] in multiset(names[t + 1..]) by { assert names[t + 1..][u - t - 1] == names[u]; }
  }

  /** What it means for a name to belong to a leg: the first keeps the node's, the others are added. */
  lemma LegIsAdded(ns: seq<Node>, gs: seq<Real>, x: Id, a: Id, i: nat) returns (k: nat)
    requires IsLegOf(ns, gs, x, a, i) && i > 0
    ensures k < |gs| && Anchor(gs[k]) == a && Own(gs, a) == Some(gs[k])
    ensures i - 1 < |NewNamesOf()(gs[k])| && NewNamesOf()(gs[k])[i - 1] == x
  {
    OwnIs(gs, a);
    var r := Own(gs, a).value;
    k :| 0 <= k < |gs| && gs[k] == r;
  }

  lemma DistinctNames(ns: seq<Node>, gs: seq<Real>)
    requires Distinct(IdsOf(ns) + Concat(gs, NewNamesOf()))
    requires forall j, k :: 0 <= j < k < |gs| ==> Anchor(gs[j]) != Anchor(gs[k])
    ensures NamesDistinct(ns, gs) && forall k :: 0 <= k < |gs| ==> NamesNew(ns, gs[k])
  {
    var added := Concat(gs, NewNamesOf());
    DistinctIsOnce(IdsOf(ns) + added);
    assert multiset(IdsOf(ns) + added) == multiset(IdsOf(ns)) + multiset(added);
    forall x ensures multiset(IdsOf(ns))[x] + multiset(added)[x] <= 1 {
      assert multiset(IdsOf(ns) + added)[x] <= 1;
    }
    forall k, x | 0 <= k < |gs| && x in NewIds(Anchor(gs[k]), gs[k].legs) ensures !HasId(ns, x) {
      InConcat(gs, NewNamesOf(), x);
      assert x in NewNamesOf()(gs[k]) && x in multiset(added);
      HasIdIs(ns, x);
    }
    forall x, a, i, b, j | IsLegOf(ns, gs, x, a, i) && IsLegOf(ns, gs, x, b, j) ensures a == b && i == j {
      assert NamesOnce(ns, gs, x);
      OneLegPerName(ns, gs, x, a, i, b, j);
    }
  }

  predicate NamesOnce(ns: seq<Node>, gs: seq<Real>, x: Id) {
    multiset(IdsOf(ns))[x] + multiset(Concat(gs, NewNamesOf()))[x] <= 1
  }

  lemma OneLegPerName(ns: seq<Node>, gs: seq<Real>, x: Id, a: Id, i: nat, b: Id, j: nat)
    requires IsLegOf(ns, gs, x, a, i) && IsLegOf(ns, gs, x, b, j) && NamesOnce(ns, gs, x)
    ensures a == b && i == j
  {
    if i > 0 && j > 0 {
      OneAddedLeg(ns, gs, x, a, i, b, j);
    } else if i > 0 {
      NotBoth(ns, gs, x, a, i, b);
    } else if j > 0 {
      NotBoth(ns, gs, x, b, j, a);
    } else {
      OwnIs(gs, a);
      OwnIs(gs, b);
    }
  }

  lemma OneAddedLeg(ns: seq<Node>, gs: seq<Real>, x: Id, a: Id, i: nat, b: Id, j: nat)
    requires IsLegOf(ns, gs, x, a, i) && IsLegOf(ns, gs, x, b, j) && NamesOnce(ns, gs, x) && i > 0 && j > 0
    ensures a == b && i == j
  {
    var k := LegIsAdded(ns, gs, x, a, i);
    var l := LegIsAdded(ns, gs, x, b, j);
    AddedTwice(gs, k, i - 1, x);
    assert x in NewNamesOf()(gs[l]);
  }

  /** A node's own name is not the name of an added leg. */
  lemma NotBoth(ns: seq<Node>, gs: seq<Real>, x: Id, a: Id, i: nat, b: Id)
    requires IsLegOf(ns, gs, x, a, i) && IsLegOf(ns, gs, x, b, 0) && i > 0
    ensures !NamesOnce(ns, gs, x)
  {
    OwnIs(gs, b);
    HasIdIs(ns, x);
    var k := LegIsAdded(ns, gs, x, a, i);
    AddedTwice(gs, k, i - 1, x);
  }

  /** For a recipe the validator accepts, the hypothesis of the other theorems is exactly that the
      names given out are all different. */
  lemma SoundExactly(ns: seq<Node>, groups: seq<Group>, tier: Tier)
    requires Checked(ns, groups, tier)
    ensures Sound(ns, groups, tier) <==> UniqueIds(Expand(ns, groups, tier))
    ensures Sound(ns, groups, tier) <==> Distinct(AllNames(ns, groups, tier))
  {
    var gs := Realized(groups, tier);
    LegNamesClashExactly(ns, groups, tier);
    RealizedAnchors(ns, groups, tier);
    if Sound(ns, groups, tier) {
      ExpandIsClosedForm(ns, groups, tier);
      assert forall k :: 0 <= k < |ns| ==> ns[k] in ns;
      FinalIdsUnique(ns, gs, ns);
    }
    if Distinct(AllNames(ns, groups, tier)) { DistinctNames(ns, gs); }
  }

  /* ---- A clash ---- */

  function Reviewer(id: Id): Node {
    Node(id, ReviewWorker, "", Some(2), Some("m"), [], ["in"], [id], [id], "gate", Some(true), Some("gate"), None, None, NO_KEYS)
  }

  const CLASHING: seq<Node> := [Reviewer("a"), Reviewer("a-x")]

  const CLASHING_GROUP: Group :=
    Group("g", "a", "k", Standard, map[Standard := 2, Strong := 2, Thorough := 2, Adversarial := 2], "all", ["cross-harness"],
          [LegSpec("anchor", "p", "m"), LegSpec("x", "q", "m")])

  lemma ClashingIsAcyclic()
    ensures Acyclic(DepGraph(CLASHING)) && KnownDeps(CLASHING) && AllStand(CLASHING)
  {
    var g := DepGraph(CLASHING);
    forall x ensures !Reaches(g, x, x) {
      if Reaches(g, x, x) { FirstStep(g, x, x); }
    }
  }

  lemma ClashingIsChecked(tier: Tier)
    requires Rank(tier) >= Rank(Standard)
    ensures Checked(CLASHING, [CLASHING_GROUP], tier)
  {
    assert CLASHING[0].id == "a" && CLASHING[1].id == "a-x";
    assert [CLASHING_GROUP][0].node == "a";
  }

  lemma ClashingNames(tier: Tier)
    requires Rank(tier) >= Rank(Standard) && ValidGroups([CLASHING_GROUP], tier)
    ensures !Distinct(AllNames(CLASHING, [CLASHING_GROUP], tier))
  {
    var legs := RealLegs(CLASHING_GROUP, tier);
    assert legs == CLASHING_GROUP.legs;
    NewNamesHead([CLASHING_GROUP], tier);
    assert NewIds("a", legs)[0] == LegId("a", "x") == "a-x";
    var names := AllNames(CLASHING, [CLASHING_GROUP], tier);
    assert IdsOf(CLASHING)[1] == "a-x";
    assert names[1] == names[2] == "a-x";
  }

  /** No two nodes write to overlapping scopes. */
  predicate WritesApart(nodes: seq<Node>) {
    forall i, j :: 0 <= i < j < |nodes| ==> !ScopesOverlap(nodes[i].scopes, nodes[j].scopes)
  }

  lemma ClashingContinues()
    requires AllStand(CLASHING)
    ensures ContinuationsFine(CLASHING, [], [])
  {
    forall i | 0 <= i < |CLASHING| ensures Waits(CLASHING[i], GatesBehind(CLASHING, [], CLASHING[i].id)) {}
  }

  lemma ClashingWritesApart()
    ensures WritesApart(CLASHING)
  {
    assert Stem("a") == "a" && Stem("a-x") == "a-x" && !RootsOverlap("a", "a-x");
    assert CLASHING[0].scopes == ["a"] && CLASHING[1].scopes == ["a-x"];
  }

  lemma ClashingIsGraph()
    ensures ValidatedGraph(CLASHING)
  {
    ClashingIsAcyclic();
    assert CLASHING[0].id == "a" && CLASHING[1].id == "a-x";
  }

  /** Two review workers without dependencies, apart in what they write: the validator's rules on
      graph, scopes, continuations and groups hold, and yet the group makes a second node of a name
      that is taken. */
  lemma LegNamesMayClash(tier: Tier)
    requires Rank(tier) >= Rank(Standard)
    ensures ValidatedGraph(CLASHING) && WritesApart(CLASHING) && ContinuationsFine(CLASHING, [], [])
    ensures Checked(CLASHING, [CLASHING_GROUP], tier)
    ensures !UniqueIds(Expand(CLASHING, [CLASHING_GROUP], tier))
  {
    ClashingIsGraph();
    ClashingIsChecked(tier);
    ClashingContinues();
    ClashingWritesApart();
    ClashingNames(tier);
    LegNamesClashExactly(CLASHING, [CLASHING_GROUP], tier);
  }
}
