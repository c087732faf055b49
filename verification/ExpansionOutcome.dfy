/** What the expansion makes of each group and each node, told in the fields of recipe and group. */
module ExpansionOutcome {
  import opened Prelude
  import opened Lists
  import opened Graph
  import opened RouteNodes
  import opened Scopes
  import opened Expansion
  import opened ExpansionForm
  import opened ExpansionMeaning
  import opened ExpansionTheorems
  import opened RouteCompiler
  import opened CompileThenVerify
  import opened ExpansionSteps

  /** No node of the recipe carries the keys of a group by itself, and group ids differ. */
  predicate PlainRecipe(ns: seq<Node>, groups: seq<Group>) {
    && (forall i :: 0 <= i < |ns| ==> ns[i].leg.None?)
    && (forall k :: 0 <= k < |groups| ==> HasId(ns, groups[k].node))
    && forall j, k :: 0 <= j < k < |groups| ==> groups[j].id != groups[k].id
  }

  /** The i-th of `width` legs of a group on node `base`, up to what it depends on and reads. */
  predicate IsLeg(m: Node, base: Node, g: Group, i: nat, width: nat)
    requires i < |g.legs|
  {
    var spec := g.legs[i];
    && m.id == (if i == 0 then base.id else base.id + "-" + spec.suffix)
    && m.profile == Some(spec.profile)
    && |m.outputs| == |base.outputs| && |m.scopes| == |base.scopes|
    && (forall j :: 0 <= j < |base.outputs| ==> m.outputs[j] == if i == 0 then base.outputs[j] else ParallelPath(base.outputs[j], spec.suffix))
    && (forall j :: 0 <= j < |base.scopes| ==> m.scopes[j] == if i == 0 then base.scopes[j] else ParallelPath(base.scopes[j], spec.suffix))
    && m.leg == Some(Leg(g.id, Some(g.id), g.kind, g.joinPolicy, g.axes, i, width, spec.suffix, base.id, spec.perspective))
    && m.kind == base.kind && m.unit == base.unit && m.depth == base.depth && m.gate == base.gate && m.keys == base.keys
    && m.terminal == base.terminal && m.terminalGate == base.terminalGate && m.continuation == base.continuation
  }

  lemma RealizedHas(groups: seq<Group>, tier: Tier, j: nat) returns (k: nat)
    requires ValidGroups(groups, tier) && j < |groups| && RealLegs(groups[j], tier) != []
    ensures k < |Realized(groups, tier)| && Realized(groups, tier)[k] == Real(groups[j], RealLegs(groups[j], tier))
  {
    var r := Real(groups[j], RealLegs(groups[j], tier));
    InConcat(groups, RealAt(tier), r);
    assert r in RealAt(tier)(groups[j]);
    k :| 0 <= k < |Realized(groups, tier)| && Realized(groups, tier)[k] == r;
  }

  lemma RealizedIds(groups: seq<Group>, tier: Tier)
    requires ValidGroups(groups, tier) && forall j, k :: 0 <= j < k < |groups| ==> groups[j].id != groups[k].id
    ensures IdsApart(Realized(groups, tier))
  {
    var gs, key := Realized(groups, tier), (g: Group) => g.id;
    assert KeysApart(groups, key);
    RealizedApart(groups, tier, key);
    forall j, k | 0 <= j < k < |gs| ensures gs[j].group.id != gs[k].group.id { assert key(gs[j].group) != key(gs[k].group); }
  }

  /** A group of which no leg is realized names no realized group. */
  lemma UnrealizedIsFree(groups: seq<Group>, tier: Tier, j: nat)
    requires ValidGroups(groups, tier) && j < |groups| && RealLegs(groups[j], tier) == []
    requires forall i, k :: 0 <= i < k < |groups| ==> groups[i].id != groups[k].id
    ensures Free(Realized(groups, tier), groups[j].id)
  {
    var gs := Realized(groups, tier);
    forall k | 0 <= k < |gs| ensures gs[k].group.id != groups[j].id {
      RealizedFrom(groups, tier, gs[k]);
      var i :| 0 <= i < |groups| && gs[k].group == groups[i] && gs[k].legs == RealLegs(groups[i], tier);
      assert RealLegs(groups[i], tier) != [];
      SameIdSamePlace(groups, i, j);
    }
  }

  lemma SameIdSamePlace(groups: seq<Group>, i: nat, j: nat)
    requires i < |groups| && j < |groups| && forall i, k :: 0 <= i < k < |groups| ==> groups[i].id != groups[k].id
    ensures groups[i].id == groups[j].id ==> i == j
  {
  }

  lemma NoPresets(ns: seq<Node>, gs: seq<Real>, g: string)
    requires forall i :: 0 <= i < |ns| ==> ns[i].leg.None?
    ensures PresetMembers(gs, ns, g) == [] && PresetsClear(ns, gs)
  {
    SomePreset(gs, ns, g);
  }

  lemma LegIs(ns: seq<Node>, gs: seq<Real>, base: Node, g: Group, legs: seq<LegSpec>, i: nat)
    requires i < |legs| <= |g.legs| && legs == g.legs[..|legs|]
    ensures IsLeg(MakeLeg(Grown(ns, base, gs), g, legs, i), base, g, i, |legs|)
  {
    var m, spec := MakeLeg(Grown(ns, base, gs), g, legs, i), g.legs[i];
    assert legs[i] == spec;
  }

  /** Every group whose first tier is reached has exactly as many members as its width at the tier, the
      legs it lists first, in order; a group below its first tier has none. */
  lemma GroupHasWidth(ns: seq<Node>, groups: seq<Group>, tier: Tier, j: nat)
    requires Sound(ns, groups, tier) && PlainRecipe(ns, groups) && j < |groups|
    ensures var g, members := groups[j], MembersOf(Expand(ns, groups, tier), groups[j].id);
            if Rank(g.minTier) <= Rank(tier) then
              && tier in g.widths && |members| == g.widths[tier] <= |g.legs|
              && forall i :: 0 <= i < |members| ==> IsLeg(members[i], Find(ns, g.node), g, i, g.widths[tier])
            else members == []
  {
    if Rank(groups[j].minTier) <= Rank(tier) {
      var k := RealizedHas(groups, tier, j);
      RealizedIds(groups, tier);
      RowLegs(ns, groups, tier, k);
      forall i | 0 <= i < groups[j].widths[tier] ensures IsLeg(MembersOf(Expand(ns, groups, tier), groups[j].id)[i], Find(ns, groups[j].node), groups[j], i, groups[j].widths[tier]) {
        LegIs(ns, Realized(groups, tier), Find(ns, groups[j].node), groups[j], Realized(groups, tier)[k].legs, i);
      }
    } else {
      ExpandIsClosedForm(ns, groups, tier);
      NoPresets(ns, Realized(groups, tier), groups[j].id);
      UnrealizedIsFree(groups, tier, j);
      RowsPresets(ns, Realized(groups, tier), ns, groups[j].id);
    }
  }

  lemma RowLegs(ns: seq<Node>, groups: seq<Group>, tier: Tier, k: nat)
    requires Sound(ns, groups, tier) && PlainRecipe(ns, groups) && k < |Realized(groups, tier)| && IdsApart(Realized(groups, tier))
    ensures var gs := Realized(groups, tier);
            var g := gs[k].group;
            && HasId(ns, g.node)
            && MembersOf(Expand(ns, groups, tier), g.id) == Legs(Grown(ns, Find(ns, g.node), gs), g, gs[k].legs, 0)
  {
    var gs := Realized(groups, tier);
    var g := gs[k].group;
    ExpandIsClosedForm(ns, groups, tier);
    NoPresets(ns, gs, g.id);
    RealizedFrom(groups, tier, gs[k]);
    MembersAreRow(ns, gs, k);
    OwnUnique(gs, k);
  }

  /** Every node of the recipe that anchors no group reached at the tier is there once, unchanged but
      for what it gained. */
  lemma OthersUnchanged(ns: seq<Node>, groups: seq<Group>, tier: Tier, n: Node)
    requires Sound(ns, groups, tier) && n in ns
    requires forall j :: 0 <= j < |groups| && Rank(groups[j].minTier) <= Rank(tier) ==> groups[j].node != n.id
    ensures HasId(Expand(ns, groups, tier), n.id)
    ensures var m := Find(Expand(ns, groups, tier), n.id);
            m == n.(deps := m.deps, inputs := m.inputs) && n.deps <= m.deps && n.inputs <= m.inputs
  {
    var gs := Realized(groups, tier);
    ExpandIsClosedForm(ns, groups, tier);
    FindUnique(ns, n);
    FirstLegIsAnchor(ns, gs, n.id);
    FindLeg(ns, gs, n.id, n.id, 0);
    OwnNone(groups, tier, n.id);
  }

  lemma OwnNone(groups: seq<Group>, tier: Tier, id: Id)
    requires ValidGroups(groups, tier) && forall j :: 0 <= j < |groups| && Rank(groups[j].minTier) <= Rank(tier) ==> groups[j].node != id
    ensures Own(Realized(groups, tier), id).None?
  {
    var gs := Realized(groups, tier);
    OwnIs(gs, id);
    forall k | 0 <= k < |gs| ensures Anchor(gs[k]) != id {
      RealizedFrom(groups, tier, gs[k]);
      var j :| 0 <= j < |groups| && gs[k].group == groups[j] && gs[k].legs == RealLegs(groups[j], tier);
      assert RealLegs(groups[j], tier) != [];
    }
  }

  /** The number of nodes: those of the recipe and, for each group reached, its width less one. */
  lemma {:induction false} ExpandedSize(nodes: seq<Node>, groups: seq<Group>, tier: Tier)
    requires ValidGroups(groups, tier) && forall k :: 0 <= k < |groups| ==> HasId(nodes, groups[k].node)
    ensures |Expand(nodes, groups, tier)| == |nodes| + Added(groups, tier)
    decreases |groups|
  {
    if groups != [] {
      var after := ExpandOne(nodes, groups[0], tier);
      OneSize(nodes, groups[0], tier);
      assert forall k :: 0 <= k < |groups[1..]| ==> groups[1..][k] == groups[k + 1];
      ExpandedSize(after, groups[1..], tier);
    }
  }

  function Added(groups: seq<Group>, tier: Tier): nat
    requires ValidGroups(groups, tier)
  {
    if groups == [] then 0
    else (if Rank(groups[0].minTier) <= Rank(tier) then groups[0].widths[tier] - 1 else 0) + Added(groups[1..], tier)
  }

  lemma OneSize(nodes: seq<Node>, g: Group, tier: Tier)
    requires ValidGroup(g, tier) && HasId(nodes, g.node)
    ensures |ExpandOne(nodes, g, tier)| == |nodes| + if Rank(g.minTier) <= Rank(tier) then g.widths[tier] - 1 else 0
    ensures forall x :: HasId(nodes, x) ==> HasId(ExpandOne(nodes, g, tier), x)
  {
    if RealLegs(g, tier) != [] { StepSize(nodes, Find(nodes, g.node), g, RealLegs(g, tier)); }
    forall x | HasId(nodes, x) ensures HasId(ExpandOne(nodes, g, tier), x) {
      var i :| 0 <= i < |nodes| && nodes[i].id == x;
      var m := OneKeeps(nodes, g, tier, nodes[i]);
      var t :| 0 <= t < |ExpandOne(nodes, g, tier)| && ExpandOne(nodes, g, tier)[t] == m;
    }
  }

  lemma {:induction false} StepSize(nodes: seq<Node>, base: Node, g: Group, legs: seq<LegSpec>)
    requires legs != [] && HasId(nodes, base.id)
    ensures |StepAll(nodes, base, g, legs)| == |nodes| + |legs| - 1
  {
    if nodes[0].id != base.id {
      assert HasId(nodes[1..], base.id) by {
        var i :| 0 <= i < |nodes| && nodes[i].id == base.id;
        assert nodes[1..][i - 1].id == base.id;
      }
      StepSize(nodes[1..], base, g, legs);
    }
  }
}
