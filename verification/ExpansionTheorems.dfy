/** What expanding parallel groups promises a reader of the route. */
module ExpansionTheorems {
  import opened Prelude
  import opened Lists
  import opened Graph
  import opened RouteNodes
  import opened Scopes
  import opened Expansion
  import opened ExpansionForm
  import opened ExpansionMeaning

  /** The recipe's groups can be realized at the tier without a name clash. */
  ghost predicate Sound(ns: seq<Node>, groups: seq<Group>, tier: Tier) {
    ValidGroups(groups, tier) && Expandable(ns, Realized(groups, tier))
  }

  ghost function OriginOf(ns: seq<Node>, groups: seq<Group>, tier: Tier, x: Id): Id
    requires ValidGroups(groups, tier)
  {
    Origin(ns, Realized(groups, tier), x)
  }

  /** Collapsing the legs onto their anchors gives back the recipe's reachability. */
  lemma ExpansionPreservesReachability(ns: seq<Node>, groups: seq<Group>, tier: Tier, x: Id, y: Id)
    requires Sound(ns, groups, tier)
    requires x in DepGraph(Expand(ns, groups, tier)) && y in DepGraph(Expand(ns, groups, tier))
    ensures Reaches(DepGraph(Expand(ns, groups, tier)), x, y) <==>
            Reaches(DepGraph(ns), OriginOf(ns, groups, tier, x), OriginOf(ns, groups, tier, y))
  {
    var gs := Realized(groups, tier);
    ExpandIsClosedForm(ns, groups, tier);
    ExpansionCollapses(ns, gs);
    CollapseReaches(DepGraph(Rows(ns, gs, ns)), DepGraph(ns), Onto(ns, gs), (a: Id) => a, x, y);
  }

  lemma ExpansionPreservesAcyclicity(ns: seq<Node>, groups: seq<Group>, tier: Tier)
    requires Sound(ns, groups, tier)
    ensures Closed(DepGraph(Expand(ns, groups, tier)))
    ensures Acyclic(DepGraph(Expand(ns, groups, tier))) <==> Acyclic(DepGraph(ns))
  {
    var gs := Realized(groups, tier);
    ExpandIsClosedForm(ns, groups, tier);
    ExpansionCollapses(ns, gs);
    CollapseAcyclic(DepGraph(Rows(ns, gs, ns)), DepGraph(ns), Onto(ns, gs), (a: Id) => a);
  }

  /** Leg `x` of any consumer of `b` depends on every leg `y` of `b`, and on no leg of anything else. */
  lemma ConsumersDependOnEveryLeg(ns: seq<Node>, groups: seq<Group>, tier: Tier, x: Id, a: Id, i: nat, y: Id, b: Id, j: nat)
    requires Sound(ns, groups, tier)
    requires IsLegOf(ns, Realized(groups, tier), x, a, i) && IsLegOf(ns, Realized(groups, tier), y, b, j)
    ensures HasId(Expand(ns, groups, tier), x)
    ensures y in Find(Expand(ns, groups, tier), x).deps <==> b in Find(ns, a).deps
  {
    var gs := Realized(groups, tier);
    ExpandIsClosedForm(ns, groups, tier);
    FindLeg(ns, gs, x, a, i);
    FinalKeeps(ns, gs, Find(ns, a), i);
    LegEdges(ns, gs, Find(ns, a), y, b, j);
  }

  /* ---- Inputs ---- */

  lemma OutputsOfLegs(outputs: seq<string>, legs: seq<LegSpec>, k: nat, x: string)
    requires 0 < k < |legs| && x in LegPaths(outputs, legs[k].suffix)
    ensures x in NewOutputs(outputs, legs)
  {
    InConcat(legs[1..], OutputsFor(outputs), x);
    assert legs[1..][k - 1] == legs[k] && x in OutputsFor(outputs)(legs[k]);
  }

  lemma InputsGained(ns: seq<Node>, n: Node, gs: seq<Real>, k: nat, x: string)
    requires k < |gs| && Anchor(gs[k]) in n.deps && HasId(ns, Anchor(gs[k])) && gs[k].legs != []
    requires x in InputsFrom(Find(ns, Anchor(gs[k])), gs[k].legs)
    ensures x in GainedInputs(ns, n, gs)
  {
    InConcat(gs, InputOf(ns, n), x);
    assert x in InputOf(ns, n)(gs[k]);
  }

  /** Every leg of a consumer of an anchor that does not review gets every output of every leg. */
  lemma ConsumersReceiveEveryOutput(
    ns: seq<Node>, groups: seq<Group>, tier: Tier, x: Id, a: Id, i: nat, y: Id, b: Id, j: nat, o: nat)
    requires Sound(ns, groups, tier)
    requires IsLegOf(ns, Realized(groups, tier), x, a, i) && IsLegOf(ns, Realized(groups, tier), y, b, j) && j > 0
    requires b in Find(ns, a).deps && Find(ns, b).kind != ReviewWorker && o < |Find(ns, b).outputs|
    ensures HasId(Expand(ns, groups, tier), x) && HasId(Expand(ns, groups, tier), y)
    ensures var leg := Find(Expand(ns, groups, tier), y);
            o < |leg.outputs| && leg.outputs[o] in Find(Expand(ns, groups, tier), x).inputs
  {
    var gs := Realized(groups, tier);
    ExpandIsClosedForm(ns, groups, tier);
    FindLeg(ns, gs, x, a, i);
    FindLeg(ns, gs, y, b, j);
    FinalKeeps(ns, gs, Find(ns, a), i);
    OwnIs(gs, b);
    var r := Own(gs, b).value;
    var k :| 0 <= k < |gs| && gs[k] == r;
    var x' := LegPaths(Find(ns, b).outputs, r.legs[j].suffix)[o];
    OutputsOfLegs(Find(ns, b).outputs, r.legs, j, x');
    InputsGained(ns, Find(ns, a), gs, k, x');
  }

  /** The legs of a reviewing anchor hand nothing to its consumers, whatever kind those have. */
  lemma ReviewAnchorsFeedNobody(ns: seq<Node>, n: Node, gs: seq<Real>)
    requires forall k :: 0 <= k < |gs| && Anchor(gs[k]) in n.deps && HasId(ns, Anchor(gs[k])) ==>
               Find(ns, Anchor(gs[k])).kind == ReviewWorker
    ensures GainedInputs(ns, n, gs) == []
  {
    ConcatNothing(gs, InputOf(ns, n));
  }

  /* ---- The order of the groups ---- */

  /** Equal except for the order of dependencies and inputs. */
  predicate SameUpToOrder(a: Node, b: Node) {
    && a.(deps := b.deps, inputs := b.inputs) == b
    && multiset(a.deps) == multiset(b.deps)
    && multiset(a.inputs) == multiset(b.inputs)
  }

  lemma OwnPermute(gs: seq<Real>, hs: seq<Real>, id: Id)
    requires multiset(gs) == multiset(hs)
    requires forall i, j :: 0 <= i < j < |hs| ==> Anchor(hs[i]) != Anchor(hs[j])
    ensures Own(gs, id) == Own(hs, id)
  {
    OwnIs(gs, id);
    OwnIs(hs, id);
    match Own(gs, id)
    case Some(r) =>
      assert r in multiset(hs);
      var k :| 0 <= k < |hs| && hs[k] == r;
      OwnUnique(hs, k);
    case None =>
      forall k | 0 <= k < |hs| ensures Anchor(hs[k]) != id {
        assert hs[k] in multiset(gs);
      }
  }

  lemma FinalPermute(ns: seq<Node>, gs: seq<Real>, hs: seq<Real>, n: Node, i: nat)
    requires multiset(gs) == multiset(hs) && Own(gs, n.id) == Own(hs, n.id) && i < Width(gs, n.id)
    ensures SameUpToOrder(Final(ns, gs, n, i), Final(ns, hs, n, i))
  {
    ConcatPermute(gs, hs, GainOf(n));
    ConcatPermute(gs, hs, InputOf(ns, n));
    FinalKeeps(ns, gs, n, i);
    FinalKeeps(ns, hs, n, i);
  }

  /** Rows in any order of the groups: the same nodes at the same places. */
  ghost predicate RowsAgree(a: seq<Node>, b: seq<Node>) {
    |a| == |b| && forall i :: 0 <= i < |a| ==> SameUpToOrder(a[i], b[i])
  }

  lemma {:induction false} RowsPermute(ns: seq<Node>, gs: seq<Real>, hs: seq<Real>, rest: seq<Node>)
    requires multiset(gs) == multiset(hs)
    requires forall i, j :: 0 <= i < j < |hs| ==> Anchor(hs[i]) != Anchor(hs[j])
    ensures RowsAgree(Rows(ns, gs, rest), Rows(ns, hs, rest))
  {
    if rest != [] {
      var n := rest[0];
      OwnPermute(gs, hs, n.id);
      RowIsFinal(ns, gs, n);
      RowIsFinal(ns, hs, n);
      forall i | 0 <= i < Width(gs, n.id) ensures SameUpToOrder(Row(ns, gs, n)[i], Row(ns, hs, n)[i]) {
        FinalPermute(ns, gs, hs, n, i);
      }
      RowsPermute(ns, gs, hs, rest[1..]);
    }
  }

  /** Groups listed in another order give the same nodes at the same places, each with the same
      dependencies and inputs up to their order. */
  lemma GroupOrderIrrelevant(ns: seq<Node>, groups: seq<Group>, others: seq<Group>, tier: Tier)
    requires Sound(ns, groups, tier) && Sound(ns, others, tier) && multiset(groups) == multiset(others)
    ensures RowsAgree(Expand(ns, groups, tier), Expand(ns, others, tier))
  {
    ExpandIsClosedForm(ns, groups, tier);
    ExpandIsClosedForm(ns, others, tier);
    ConcatPermute(groups, others, RealAt(tier));
    RowsPermute(ns, Realized(groups, tier), Realized(others, tier), ns);
  }
}
