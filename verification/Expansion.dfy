/** Realization of parallel groups: one anchor node becomes two to four sibling legs in place. */
module Expansion {
  import opened Prelude
  import opened Lists
  import opened Graph
  import opened RouteNodes
  import opened Scopes

  datatype LegSpec = LegSpec(suffix: string, perspective: string, profile: string)

  datatype Group = Group(
    id: string,
    node: Id,
    kind: string,
    minTier: Tier,
    widths: map<Tier, nat>,
    joinPolicy: string,
    axes: seq<string>,
    legs: seq<LegSpec>)

  function LegId(base: Id, suffix: string): Id {
    base + "-" + suffix
  }

  function LegName(base: Id, legs: seq<LegSpec>, i: nat): Id
    requires i < |legs|
  {
    if i == 0 then base else LegId(base, legs[i].suffix)
  }

  function LegPaths(paths: seq<string>, suffix: string): seq<string> {
    seq(|paths|, i requires 0 <= i < |paths| => ParallelPath(paths[i], suffix))
  }

  /** The i-th leg made from the anchor; leg 0 is the anchor under its own name. */
  function MakeLeg(base: Node, g: Group, legs: seq<LegSpec>, i: nat): Node
    requires i < |legs|
  {
    var suffix := legs[i].suffix;
    base.(
      id := LegName(base.id, legs, i),
      outputs := if i == 0 then base.outputs else LegPaths(base.outputs, suffix),
      scopes := if i == 0 then base.scopes else LegPaths(base.scopes, suffix),
      profile := Some(legs[i].profile),
      leg := Some(Leg(g.id, Some(g.id), g.kind, g.joinPolicy, g.axes, i, |legs|, suffix, base.id, legs[i].perspective)))
  }

  /** Legs `i`, `i + 1`, ... of the anchor. */
  function Legs(base: Node, g: Group, legs: seq<LegSpec>, i: nat): (r: seq<Node>)
    requires i <= |legs|
  {
    seq(|legs| - i, k requires 0 <= k < |legs| - i => MakeLeg(base, g, legs, i + k))
  }

  function NewIds(base: Id, legs: seq<LegSpec>): seq<Id> {
    if legs == [] then [] else seq(|legs| - 1, i requires 0 <= i < |legs| - 1 => LegName(base, legs, i + 1))
  }

  function OutputsFor(outputs: seq<string>): LegSpec -> seq<string> {
    (leg: LegSpec) => LegPaths(outputs, leg.suffix)
  }

  /** The outputs of all legs but the first. */
  function NewOutputs(outputs: seq<string>, legs: seq<LegSpec>): seq<string>
    requires legs != []
  {
    Concat(legs[1..], OutputsFor(outputs))
  }

  /** A direct consumer of the anchor gains its new legs, and their outputs unless the anchor reviews. */
  function Consume(n: Node, base: Node, legs: seq<LegSpec>): Node
    requires legs != []
  {
    if base.id !in n.deps then n
    else
      n.(deps := n.deps + NewIds(base.id, legs),
         inputs := n.inputs + if base.kind == ReviewWorker then [] else NewOutputs(base.outputs, legs))
  }

  function ConsumeAll(nodes: seq<Node>, base: Node, legs: seq<LegSpec>): seq<Node>
    requires legs != []
  {
    seq(|nodes|, i requires 0 <= i < |nodes| => Consume(nodes[i], base, legs))
  }

  /** The first node of the anchor's name becomes the legs; every other node may be a consumer. */
  function StepAll(nodes: seq<Node>, base: Node, g: Group, legs: seq<LegSpec>): seq<Node>
    requires legs != []
  {
    if nodes == [] then []
    else if nodes[0].id == base.id then Legs(nodes[0], g, legs, 0) + ConsumeAll(nodes[1..], base, legs)
    else [Consume(nodes[0], base, legs)] + StepAll(nodes[1..], base, g, legs)
  }

  predicate Applies(g: Group, tier: Tier) {
    Rank(g.minTier) <= Rank(tier)
  }

  /** What the registry validator guarantees of a group it accepts. */
  predicate ValidGroup(g: Group, tier: Tier) {
    Applies(g, tier) ==> tier in g.widths && 2 <= g.widths[tier] <= |g.legs|
  }

  /** The legs a group has at a tier; none below its first tier. */
  function RealLegs(g: Group, tier: Tier): (legs: seq<LegSpec>)
    requires ValidGroup(g, tier)
    ensures legs == [] || |legs| >= 2
  {
    if Applies(g, tier) then g.legs[..g.widths[tier]] else []
  }

  function ExpandOne(nodes: seq<Node>, g: Group, tier: Tier): seq<Node>
    requires ValidGroup(g, tier)
  {
    var legs := RealLegs(g, tier);
    if legs == [] || !HasId(nodes, g.node) then nodes else StepAll(nodes, Find(nodes, g.node), g, legs)
  }

  predicate ValidGroups(groups: seq<Group>, tier: Tier) {
    forall k :: 0 <= k < |groups| ==> ValidGroup(groups[k], tier)
  }

  /** All groups in turn, each applied to what the earlier ones left. */
  function Expand(nodes: seq<Node>, groups: seq<Group>, tier: Tier): seq<Node>
    requires ValidGroups(groups, tier)
    decreases |groups|
  {
    if groups == [] then nodes else Expand(ExpandOne(nodes, groups[0], tier), groups[1..], tier)
  }

  /* ---- The loops ---- */

  /** The expansion as it runs: members built leg by leg, consumers updated, legs put behind the anchor. */
  method ExpandParallelGroups(nodes: seq<Node>, groups: seq<Group>, tier: Tier) returns (r: seq<Node>)
    requires ValidGroups(groups, tier)
    ensures r == Expand(nodes, groups, tier)
  {
    r := nodes;
    var k := 0;
    while k < |groups|
      invariant k <= |groups|
      invariant Expand(r, groups[k..], tier) == Expand(nodes, groups, tier)
    {
      assert groups[k..][0] == groups[k] && groups[k..][1..] == groups[k + 1..];
      r := ExpandGroup(r, groups[k], tier);
      k := k + 1;
    }
  }

  lemma Associate<T>(a: seq<T>, b: seq<T>, c: seq<T>)
    ensures (a + b) + c == a + (b + c)
  {
  }

  /** What is still to come of a step, before and after the anchor has been met. */
  function StepRest(nodes: seq<Node>, base: Node, g: Group, legs: seq<LegSpec>, met: bool): seq<Node>
    requires legs != []
  {
    if met then ConsumeAll(nodes, base, legs) else StepAll(nodes, base, g, legs)
  }

  lemma StepRestAt(nodes: seq<Node>, j: nat, base: Node, g: Group, legs: seq<LegSpec>, met: bool)
    requires j < |nodes| && legs != []
    ensures var now := !met && nodes[j].id == base.id;
            StepRest(nodes[j..], base, g, legs, met) ==
            (if now then Legs(nodes[j], g, legs, 0) else [Consume(nodes[j], base, legs)]) + StepRest(nodes[j + 1..], base, g, legs, met || now)
  {
    assert nodes[j..][0] == nodes[j] && nodes[j..][1..] == nodes[j + 1..];
    if met { assert ConsumeAll(nodes[j..], base, legs) == [Consume(nodes[j], base, legs)] + ConsumeAll(nodes[j + 1..], base, legs); }
  }

  method ExpandGroup(nodes: seq<Node>, g: Group, tier: Tier) returns (expanded: seq<Node>)
    requires ValidGroup(g, tier)
    ensures expanded == ExpandOne(nodes, g, tier)
  {
    if !Applies(g, tier) || !HasId(nodes, g.node) { return nodes; }
    var legs := g.legs[..g.widths[tier]];
    var base := Find(nodes, g.node);
    expanded := [];
    var j, met := 0, false;
    while j < |nodes|
      invariant j <= |nodes|
      invariant expanded + StepRest(nodes[j..], base, g, legs, met) == StepAll(nodes, base, g, legs)
    {
      StepRestAt(nodes, j, base, g, legs, met);
      var step := [Consume(nodes[j], base, legs)];
      var now := !met && nodes[j].id == base.id;
      if now { step := BuildLegs(nodes[j], g, legs); }
      Associate(expanded, step, StepRest(nodes[j + 1..], base, g, legs, met || now));
      expanded, met, j := expanded + step, met || now, j + 1;
    }
  }

  lemma LegsFrom(base: Node, g: Group, legs: seq<LegSpec>, i: nat)
    requires i < |legs|
    ensures Legs(base, g, legs, i) == [MakeLeg(base, g, legs, i)] + Legs(base, g, legs, i + 1)
  {
    var all, rest := Legs(base, g, legs, i), Legs(base, g, legs, i + 1);
    forall k | 0 <= k < |rest| ensures all[k + 1] == rest[k] {}
  }

  method BuildLegs(base: Node, g: Group, legs: seq<LegSpec>) returns (members: seq<Node>)
    ensures members == Legs(base, g, legs, 0)
  {
    members := [];
    var i := 0;
    while i < |legs|
      invariant i <= |legs| && members + Legs(base, g, legs, i) == Legs(base, g, legs, 0)
    {
      LegsFrom(base, g, legs, i);
      Associate(members, [MakeLeg(base, g, legs, i)], Legs(base, g, legs, i + 1));
      members := members + [MakeLeg(base, g, legs, i)];
      i := i + 1;
    }
  }
}
