/** What one group, and all of them, make of a single node; names may clash here. */
module ExpansionSteps {
  import opened Prelude
  import opened RouteNodes
  import opened Scopes
  import opened Expansion

  /** A node of a step is a node as it was, but for what it gained, or a leg of one. */
  predicate Made(m: Node, n: Node, base: Node, g: Group, legs: seq<LegSpec>)
    requires legs != []
  {
    m == Consume(n, base, legs) || (n.id == base.id && exists i :: 0 <= i < |legs| && m == MakeLeg(n, g, legs, i))
  }

  lemma {:induction false} StepMember(nodes: seq<Node>, base: Node, g: Group, legs: seq<LegSpec>, m: Node)
    requires legs != [] && m in StepAll(nodes, base, g, legs)
    ensures exists k :: 0 <= k < |nodes| && Made(m, nodes[k], base, g, legs)
  {
    var rest := nodes[1..];
    assert forall k :: 0 <= k < |rest| ==> rest[k] == nodes[k + 1];
    if nodes[0].id == base.id {
      if m in Legs(nodes[0], g, legs, 0) {
        var i :| 0 <= i < |legs| && Legs(nodes[0], g, legs, 0)[i] == m;
        assert Made(m, nodes[0], base, g, legs);
      } else {
        var k :| 0 <= k < |rest| && ConsumeAll(rest, base, legs)[k] == m;
        assert Made(m, nodes[k + 1], base, g, legs);
      }
    } else if m == Consume(nodes[0], base, legs) {
      assert Made(m, nodes[0], base, g, legs);
    } else {
      StepMember(rest, base, g, legs, m);
      var k :| 0 <= k < |rest| && Made(m, rest[k], base, g, legs);
      assert Made(m, nodes[k + 1], base, g, legs);
    }
  }

  /** No node is lost: each remains as it was, but for what it gained, or as the first leg. */
  lemma {:induction false} StepKeeps(nodes: seq<Node>, base: Node, g: Group, legs: seq<LegSpec>, n: Node) returns (m: Node)
    requires legs != [] && n in nodes
    ensures m in StepAll(nodes, base, g, legs) && (m == Consume(n, base, legs) || (n.id == base.id && m == MakeLeg(n, g, legs, 0)))
  {
    var rest := nodes[1..];
    if nodes[0].id == base.id && n == nodes[0] {
      m := MakeLeg(n, g, legs, 0);
      assert Legs(n, g, legs, 0)[0] == m;
    } else if n == nodes[0] {
      m := Consume(n, base, legs);
    } else if nodes[0].id == base.id {
      var k :| 0 <= k < |rest| && rest[k] == n;
      m := Consume(n, base, legs);
      assert ConsumeAll(rest, base, legs)[k] == m;
    } else {
      m := StepKeeps(rest, base, g, legs, n);
    }
  }

  /** The same in all that expansion leaves alone. */
  predicate SameCore(m: Node, n: Node) {
    && m.kind == n.kind && m.unit == n.unit && m.depth == n.depth && m.keys == n.keys && m.gate == n.gate
    && m.terminal == n.terminal && m.terminalGate == n.terminalGate && m.continuation == n.continuation
  }

  /** Every node of a group's result is a copy of one of its nodes. */
  lemma OneFrom(nodes: seq<Node>, g: Group, tier: Tier, m: Node) returns (n: Node)
    requires ValidGroup(g, tier) && m in ExpandOne(nodes, g, tier)
    ensures n in nodes && SameCore(m, n)
  {
    var legs := RealLegs(g, tier);
    if legs == [] || !HasId(nodes, g.node) {
      n := m;
    } else {
      var base := Find(nodes, g.node);
      StepMember(nodes, base, g, legs, m);
      var k :| 0 <= k < |nodes| && Made(m, nodes[k], base, g, legs);
      n := nodes[k];
    }
  }

  /** Every node is still there after a group, under its name, with all it depended on. */
  lemma OneKeeps(nodes: seq<Node>, g: Group, tier: Tier, n: Node) returns (m: Node)
    requires ValidGroup(g, tier) && n in nodes
    ensures m in ExpandOne(nodes, g, tier) && m.id == n.id && SameCore(m, n) && n.deps <= m.deps
  {
    var legs := RealLegs(g, tier);
    if legs == [] || !HasId(nodes, g.node) {
      m := n;
    } else {
      m := StepKeeps(nodes, Find(nodes, g.node), g, legs, n);
    }
  }

  lemma {:induction false} ExpandFromCore(nodes: seq<Node>, groups: seq<Group>, tier: Tier, m: Node) returns (n: Node)
    requires ValidGroups(groups, tier) && m in Expand(nodes, groups, tier)
    ensures n in nodes && SameCore(m, n)
    decreases |groups|
  {
    if groups == [] {
      n := m;
    } else {
      var later := ExpandFromCore(ExpandOne(nodes, groups[0], tier), groups[1..], tier, m);
      n := OneFrom(nodes, groups[0], tier, later);
    }
  }

  lemma {:induction false} ExpandKeeps(nodes: seq<Node>, groups: seq<Group>, tier: Tier, n: Node) returns (m: Node)
    requires ValidGroups(groups, tier) && n in nodes
    ensures m in Expand(nodes, groups, tier) && m.id == n.id && SameCore(m, n) && n.deps <= m.deps
    decreases |groups|
  {
    if groups == [] {
      m := n;
    } else {
      var first := OneKeeps(nodes, groups[0], tier, n);
      m := ExpandKeeps(ExpandOne(nodes, groups[0], tier), groups[1..], tier, first);
    }
  }
}
