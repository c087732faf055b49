/** Every compiled route verifies, exactly when the legs of its groups write to disjoint scopes. */
module CompileThenVerify {
  import opened Prelude
  import opened Graph
  import opened RouteNodes
  import opened Scopes
  import opened Expansion
  import opened ExpansionForm
  import opened ExpansionMeaning
  import opened ExpansionTheorems
  import opened WorkflowContract
  import opened RouteCompiler
  import opened RouteVerifier
  import E = Evidence

  /* ---- What the registry validator guarantees ---- */

  predicate ValidRegistry(reg: Registry) {
    && Standard in reg.ownerProfile && Quick in reg.ownerProfile && reg.ownerProfile[Quick] in reg.registered
    && forall t :: !Small(t) ==> t in reg.ownerProfile && reg.ownerProfile[t] == reg.ownerProfile[Standard]
  }

  predicate ValidNode(reg: Registry, n: Node) {
    if !IsAgent(n) then n.depth.None?
    else
      && n.depth in {Some(1), Some(2)} && n.profile.Some? && n.profile.value in reg.registered
      && (SemanticOwner(n) ==> n.depth == Some(1) && n.profile == ProfileFor(reg, Standard))
  }

  const TARGETS: set<Kind> := {ReviewWorker, MapWorker, PipelineStage}

  predicate ValidTarget(reg: Registry, ns: seq<Node>, g: Group) {
    && HasId(ns, g.node) && Find(ns, g.node).kind in TARGETS
    && forall i :: 0 <= i < |g.legs| ==> g.legs[i].profile in reg.registered
  }

  ghost predicate ValidRecipe(reg: Registry, recipe: Recipe) {
    && ValidatedGraph(recipe.nodes)
    && (forall i :: 0 <= i < |recipe.nodes| ==> ValidNode(reg, recipe.nodes[i]))
    && recipe.ownerDepth == 1 && recipe.maxDepth == Deepest(recipe.nodes, 0)
    && (forall k :: 0 <= k < |recipe.groups| ==> ValidTarget(reg, recipe.nodes, recipe.groups[k]))
    && (forall j, k :: 0 <= j < k < |recipe.groups| ==> recipe.groups[j].id != recipe.groups[k].id)
    && (forall t :: !Small(t) ==> ValidGroups(recipe.groups, t))
    && Anchored(recipe.extensions, recipe.nodes) && GatesDeclared(recipe.bindings, recipe.humanGates)
  }

  predicate ValidAffinity(affinities: set<string>, table: Option<map<Id, string>>) {
    "unspecified" in affinities && (table.Some? ==> forall k :: k in table.value ==> table.value[k] in affinities)
  }

  /* ---- When legs stay apart ---- */

  function LegScopes(base: Node, legs: seq<LegSpec>, i: nat): seq<string>
    requires i < |legs|
  {
    if i == 0 then base.scopes else LegPaths(base.scopes, legs[i].suffix)
  }

  predicate LegsApart(base: Node, legs: seq<LegSpec>) {
    forall i, j :: 0 <= i < j < |legs| ==> ScopesApart(LegScopes(base, legs, i), LegScopes(base, legs, j))
  }

  /** No leg of a realized group may write where a sibling writes; a check on the recipe alone. */
  predicate SiblingsApart(ns: seq<Node>, gs: seq<Real>) {
    forall k :: 0 <= k < |gs| && HasId(ns, Anchor(gs[k])) ==> LegsApart(Find(ns, Anchor(gs[k])), gs[k].legs)
  }

  /** One plain scope is enough, given the suffixes the validator accepts. */
  lemma OneScopeSuffices(base: Node, legs: seq<LegSpec>)
    requires |base.scopes| == 1 && Plain(base.scopes[0]) && Safe(base.scopes[0])
    requires forall i :: 0 <= i < |legs| ==> ValidSuffix(legs[i].suffix)
    requires forall i, j :: 0 <= i < j < |legs| ==> legs[i].suffix != legs[j].suffix
    ensures LegsApart(base, legs)
  {
    forall i, j | 0 <= i < j < |legs| ensures ScopesApart(LegScopes(base, legs, i), LegScopes(base, legs, j)) {
      assert base.scopes == [base.scopes[0]];
      if i == 0 {
        BaseAndLegFine(base.scopes[0], legs[j].suffix);
      } else {
        LegsFine(base.scopes[0], legs[i].suffix, legs[j].suffix);
      }
    }
  }

  lemma BaseAndLegFine(path: string, s: string)
    requires Plain(path) && Safe(path) && ValidSuffix(s)
    ensures PairFine(path, ParallelPath(path, s))
  {
    LegsDisjoint(path, s, s);
    LegSafe(path, s);
  }

  lemma LegsFine(path: string, s: string, t: string)
    requires Plain(path) && Safe(path) && ValidSuffix(s) && ValidSuffix(t) && s != t
    ensures PairFine(ParallelPath(path, s), ParallelPath(path, t))
  {
    LegsDisjoint(path, s, t);
    LegSafe(path, s);
    LegSafe(path, t);
  }

  /** Two scopes the validator accepts together may collide once suffixed. */
  lemma TwoScopesMayCollide(base: Node, legs: seq<LegSpec>)
    requires base.scopes == ["a/**", "a-x/**"] && |legs| == 2 && legs[1].suffix == "x"
    ensures !LegsApart(base, legs)
  {
    SiblingScopesMayCollide();
    var moved := LegScopes(base, legs, 1);
    assert moved[0] == ParallelPath("a/**", "x");
    assert LegScopes(base, legs, 0)[1] == "a-x/**";
    assert !PairFine(LegScopes(base, legs, 0)[1], moved[0]);
    assert !ScopesApart(LegScopes(base, legs, 0), moved);
  }

  /* ---- Members of a group in the expansion ---- */

  predicate LegsAreAgents(nodes: seq<Node>) {
    forall i :: 0 <= i < |nodes| ==> nodes[i].leg.Some? ==> IsAgent(nodes[i])
  }

  lemma {:induction false} AgentsKeepMembers(nodes: seq<Node>, g: string)
    requires LegsAreAgents(nodes)
    ensures MembersOf(Agents(nodes), g) == MembersOf(nodes, g)
  {
    if nodes != [] {
      AgentsKeepMembers(nodes[1..], g);
      var first := if IsAgent(nodes[0]) then [nodes[0]] else [];
      MembersJoin(first, Agents(nodes[1..]), g);
      if first != [] { assert first[1..] == []; }
    }
  }

  lemma {:induction false} AgentsJoin(a: seq<Node>, b: seq<Node>)
    ensures Agents(a + b) == Agents(a) + Agents(b)
  {
    if a == [] {
      assert [] + b == b;
    } else {
      assert (a + b)[0] == a[0] && (a + b)[1..] == a[1..] + b;
      AgentsJoin(a[1..], b);
    }
  }

  lemma {:induction false} AgentsKeepGroups(nodes: seq<Node>)
    requires LegsAreAgents(nodes)
    ensures GroupIds(Agents(nodes)) == GroupIds(nodes)
    decreases |nodes|
  {
    if nodes != [] {
      var before, last := nodes[..|nodes| - 1], nodes[|nodes| - 1];
      AgentsKeepGroups(before);
      assert nodes == before + [last] && [last][1..] == [];
      AgentsJoin(before, [last]);
      var agents := Agents(nodes);
      if IsAgent(last) {
        assert agents == Agents(before) + [last] && agents[..|agents| - 1] == Agents(before);
      } else {
        assert agents == Agents(before) + [] == Agents(before);
        assert nodes[|nodes| - 1].leg.None?;
      }
    }
  }

  lemma {:induction false} AllMembers(nodes: seq<Node>, g: string)
    requires forall i :: 0 <= i < |nodes| ==> InGroup(nodes[i], g)
    ensures MembersOf(nodes, g) == nodes
  {
    if nodes != [] { AllMembers(nodes[1..], g); }
  }

  lemma {:induction false} NoMembers(nodes: seq<Node>, g: string)
    requires forall i :: 0 <= i < |nodes| ==> !InGroup(nodes[i], g)
    ensures MembersOf(nodes, g) == []
  {
    if nodes != [] { NoMembers(nodes[1..], g); }
  }

  predicate IdsApart(gs: seq<Real>) {
    forall j, k :: 0 <= j < k < |gs| ==> gs[j].group.id != gs[k].group.id
  }

  /** A node that carries group keys already, and keeps them because no group is realized on it. */
  predicate Preset(gs: seq<Real>, n: Node) {
    n.leg.Some? && Own(gs, n.id).None?
  }

  predicate Free(gs: seq<Real>, group: string) {
    forall k :: 0 <= k < |gs| ==> gs[k].group.id != group
  }

  predicate PresetsClear(ns: seq<Node>, gs: seq<Real>) {
    forall i :: 0 <= i < |ns| && Preset(gs, ns[i]) ==> Free(gs, ns[i].leg.value.group)
  }

  lemma RowMembers(ns: seq<Node>, gs: seq<Real>, n: Node, k: nat)
    requires Expandable(ns, gs) && IdsApart(gs) && PresetsClear(ns, gs) && n in ns && k < |gs|
    ensures MembersOf(Row(ns, gs, n), gs[k].group.id) == if n.id == Anchor(gs[k]) then Row(ns, gs, n) else []
  {
    var g := gs[k].group.id;
    OwnUnique(gs, k);
    OwnIs(gs, n.id);
    RowIsFinal(ns, gs, n);
    if n.id == Anchor(gs[k]) {
      AllMembers(Row(ns, gs, n), g);
    } else {
      if Own(gs, n.id).Some? {
        var j :| 0 <= j < |gs| && gs[j] == Own(gs, n.id).value;
        assert gs[j].group.id != g;
      } else {
        var i :| 0 <= i < |ns| && ns[i] == n;
        assert Preset(gs, ns[i]) ==> Free(gs, ns[i].leg.value.group);
      }
      NoMembers(Row(ns, gs, n), g);
    }
  }

  lemma {:induction false} RowsMembers(ns: seq<Node>, gs: seq<Real>, rest: seq<Node>, k: nat)
    requires Expandable(ns, gs) && IdsApart(gs) && PresetsClear(ns, gs) && k < |gs|
    requires UniqueIds(rest) && forall i :: 0 <= i < |rest| ==> rest[i] in ns
    ensures MembersOf(Rows(ns, gs, rest), gs[k].group.id) ==
            if HasId(rest, Anchor(gs[k])) then Row(ns, gs, Find(rest, Anchor(gs[k]))) else []
  {
    if rest != [] {
      var n, later, a := rest[0], rest[1..], Anchor(gs[k]);
      RowsMembers(ns, gs, later, k);
      RowMembers(ns, gs, n, k);
      MembersJoin(Row(ns, gs, n), Rows(ns, gs, later), gs[k].group.id);
      FindBehind(rest, a);
    }
  }

  /** Looking up an id in a list with unique ids is looking at the head or in the tail. */
  lemma FindBehind(rest: seq<Node>, a: Id)
    requires rest != [] && UniqueIds(rest)
    ensures HasId(rest, a) <==> rest[0].id == a || HasId(rest[1..], a)
    ensures rest[0].id == a ==> Find(rest, a) == rest[0] && !HasId(rest[1..], a)
    ensures rest[0].id != a && HasId(rest[1..], a) ==> Find(rest, a) == Find(rest[1..], a)
  {
    var later := rest[1..];
    assert forall i :: 0 <= i < |later| ==> later[i] == rest[i + 1];
    if HasId(rest, a) && rest[0].id != a {
      var i :| 0 <= i < |rest| && rest[i].id == a;
      assert later[i - 1].id == a;
    }
    if HasId(later, a) {
      var m := Find(later, a);
      var i :| 0 <= i < |later| && later[i] == m;
      assert rest[i + 1].id == a;
      FindUnique(rest, rest[i + 1]);
    }
  }

  /* ---- Sorting and checking the members ---- */

  predicate InOrder(members: seq<Node>) {
    forall i :: 0 <= i < |members| - 1 ==> IndexOf(members[i]) <= IndexOf(members[i + 1])
  }

  lemma {:induction false} SortedAlready(members: seq<Node>)
    requires InOrder(members)
    ensures SortByIndex(members) == members
  {
    if members != [] {
      assert forall i :: 0 <= i < |members| - 1 ==> members[1..][i] == members[i + 1];
      SortedAlready(members[1..]);
      if |members| > 1 { assert IndexOf(members[0]) <= IndexOf(members[0 + 1]); }
    }
  }

  lemma {:induction false} InsertKeeps(n: Node, sorted: seq<Node>)
    ensures forall m :: m in RouteVerifier.Insert(n, sorted) <==> m == n || m in sorted
  {
    if sorted != [] && IndexOf(n) > IndexOf(sorted[0]) {
      InsertKeeps(n, sorted[1..]);
      assert sorted == [sorted[0]] + sorted[1..];
    }
  }

  lemma {:induction false} SortKeeps(members: seq<Node>)
    ensures forall m :: m in SortByIndex(members) <==> m in members
  {
    if members != [] {
      SortKeeps(members[1..]);
      InsertKeeps(members[0], SortByIndex(members[1..]));
      assert members == [members[0]] + members[1..];
    }
  }

  /** The legs of any anchor pass the group check exactly if their scopes stay apart. */
  lemma LegsFineExactly(base: Node, g: Group, legs: seq<LegSpec>)
    requires legs != []
    ensures GroupFine(Legs(base, g, legs, 0)) <==> LegsApart(base, legs)
  {
    var row := Legs(base, g, legs, 0);
    assert forall i :: 0 <= i < |legs| ==> row[i].scopes == LegScopes(base, legs, i);
  }

  lemma RowFine(ns: seq<Node>, gs: seq<Real>, k: nat)
    requires Expandable(ns, gs) && k < |gs|
    ensures GroupFine(Row(ns, gs, Find(ns, Anchor(gs[k])))) <==> LegsApart(Find(ns, Anchor(gs[k])), gs[k].legs)
  {
    OwnUnique(gs, k);
    var base, legs := Find(ns, Anchor(gs[k])), gs[k].legs;
    var grown := Grown(ns, base, gs);
    LegsFineExactly(grown, gs[k].group, legs);
    SameScopesApart(base, grown, legs);
  }

  lemma SameScopesApart(a: Node, b: Node, legs: seq<LegSpec>)
    requires a.scopes == b.scopes
    ensures LegsApart(a, legs) <==> LegsApart(b, legs)
  {
    assert forall i :: 0 <= i < |legs| ==> LegScopes(a, legs, i) == LegScopes(b, legs, i);
  }

  /* ---- The groups of a compiled route ---- */

  /** The group checks and the summary of a route, on its nodes: every member is an agent, and each
      group is complete and listed in the order of its legs. */
  predicate GroupHolds(nodes: seq<Node>, g: string) {
    var members := MembersOf(nodes, g);
    GroupFine(SortByIndex(members)) && IdsOf(SortByIndex(members)) == IdsOf(members)
  }

  predicate GroupsHold(nodes: seq<Node>) {
    LegsAreAgents(nodes) && forall k :: 0 <= k < |GroupIds(nodes)| ==> GroupHolds(nodes, GroupIds(nodes)[k])
  }

  predicate SummaryFine(nodes: seq<Node>) {
    GroupsFine(nodes) && Summary(nodes) == ExpectedRows(nodes)
  }

  lemma {:induction false} AgentMembers(nodes: seq<Node>, g: string)
    ensures |MembersOf(Agents(nodes), g)| <= |MembersOf(nodes, g)|
    ensures |MembersOf(Agents(nodes), g)| == |MembersOf(nodes, g)| ==>
              forall i :: 0 <= i < |nodes| && InGroup(nodes[i], g) ==> IsAgent(nodes[i])
  {
    if nodes != [] {
      AgentMembers(nodes[1..], g);
      var first := if IsAgent(nodes[0]) then [nodes[0]] else [];
      MembersJoin(first, Agents(nodes[1..]), g);
      if first != [] { assert first[1..] == []; }
      assert forall i :: 0 < i < |nodes| ==> nodes[i] == nodes[1..][i - 1];
    }
  }

  /** The k-th rows agree when the members do. */
  lemma RowsSameLength(nodes: seq<Node>, k: nat)
    requires SummaryFine(nodes) && k < |GroupIds(nodes)|
    ensures k < |GroupIds(Agents(nodes))| && GroupIds(Agents(nodes))[k] == GroupIds(nodes)[k]
    ensures var g := GroupIds(nodes)[k]; IdsOf(MembersOf(nodes, g)) == IdsOf(GroupMembers(nodes, g))
  {
    var rows, expected := Summary(nodes), ExpectedRows(nodes);
    assert rows[k] == expected[k];
  }

  lemma SummaryNeedsAgents(nodes: seq<Node>)
    requires SummaryFine(nodes)
    ensures LegsAreAgents(nodes)
  {
    forall t | 0 <= t < |nodes| && nodes[t].leg.Some? ensures IsAgent(nodes[t]) {
      var g := nodes[t].leg.value.group;
      InMembers(nodes, g, t);
      MemberCounts(nodes, g);
      var k :| 0 <= k < |GroupIds(nodes)| && GroupIds(nodes)[k] == g;
      RowsSameLength(nodes, k);
      AgentMembers(nodes, g);
    }
  }

  lemma {:induction false} InMembers(nodes: seq<Node>, g: string, t: nat)
    requires t < |nodes| && InGroup(nodes[t], g)
    ensures nodes[t] in MembersOf(nodes, g)
  {
    if t > 0 { InMembers(nodes[1..], g, t - 1); }
  }

  lemma SameMembers(nodes: seq<Node>, g: string)
    requires LegsAreAgents(nodes)
    ensures GroupMembers(nodes, g) == SortByIndex(MembersOf(nodes, g))
  {
    AgentsKeepMembers(nodes, g);
  }

  lemma RowIsExpected(nodes: seq<Node>, g: string)
    requires LegsAreAgents(nodes) && GroupHolds(nodes, g)
    ensures GroupFine(GroupMembers(nodes, g)) && MembersOf(nodes, g) != []
    ensures RowFrom(MembersOf(nodes, g), g) == ExpectedRow(nodes, g)
  {
    var members := MembersOf(nodes, g);
    SameMembers(nodes, g);
    SortKeeps(members);
    assert members[0] in SortByIndex(members);
  }

  /** The verifier's group checks and summary pass exactly on nodes whose groups hold. */
  lemma GroupsHoldExactly(nodes: seq<Node>)
    ensures SummaryFine(nodes) <==> GroupsHold(nodes)
  {
    if GroupsHold(nodes) {
      AgentsKeepGroups(nodes);
      var ids := GroupIds(nodes);
      forall k | 0 <= k < |ids| ensures GroupFine(GroupMembers(nodes, ids[k])) && RowFrom(MembersOf(nodes, ids[k]), ids[k]) == ExpectedRow(nodes, ids[k]) {
        assert GroupHolds(nodes, ids[k]);
        RowIsExpected(nodes, ids[k]);
      }
    }
    if SummaryFine(nodes) {
      SummaryNeedsAgents(nodes);
      forall k | 0 <= k < |GroupIds(nodes)| ensures GroupHolds(nodes, GroupIds(nodes)[k]) {
        RowsSameLength(nodes, k);
        SameMembers(nodes, GroupIds(nodes)[k]);
      }
    }
  }

  lemma {:induction false} MembersInList(nodes: seq<Node>, g: string)
    ensures forall m :: m in MembersOf(nodes, g) ==> m in nodes && InGroup(m, g)
  {
    if nodes != [] { MembersInList(nodes[1..], g); }
  }

  lemma {:induction false} MemberCounts(nodes: seq<Node>, g: string)
    ensures g in GroupIds(nodes) <==> MembersOf(nodes, g) != []
    decreases |nodes|
  {
    if nodes != [] {
      MembersGrow(nodes);
      MemberCounts(nodes[..|nodes| - 1], g);
    }
  }

  /* ---- The groups of an expansion ---- */

  /** The nodes of the recipe that carry the keys of a group by themselves. */
  function PresetMembers(gs: seq<Real>, nodes: seq<Node>, g: string): seq<Node> {
    if nodes == [] then []
    else PresetMember(gs, nodes[0], g) + PresetMembers(gs, nodes[1..], g)
  }

  /** Such a node is an agent, its group is none of the realized ones, and the members of that group
      are complete, in order and apart; a check on the recipe alone. */
  predicate PresetFine(ns: seq<Node>, gs: seq<Real>, n: Node) {
    Preset(gs, n) ==>
      IsAgent(n) && Free(gs, n.leg.value.group) && GroupFine(PresetMembers(gs, ns, n.leg.value.group))
  }

  predicate PresetsFine(ns: seq<Node>, gs: seq<Real>) {
    forall i :: 0 <= i < |ns| ==> PresetFine(ns, gs, ns[i])
  }

  function GrownAll(ns: seq<Node>, gs: seq<Real>, nodes: seq<Node>): seq<Node> {
    seq(|nodes|, i requires 0 <= i < |nodes| => Grown(ns, nodes[i], gs))
  }

  lemma GrownFine(ns: seq<Node>, gs: seq<Real>, nodes: seq<Node>)
    ensures GroupFine(GrownAll(ns, gs, nodes)) <==> GroupFine(nodes)
  {
    var grown := GrownAll(ns, gs, nodes);
    assert forall i :: 0 <= i < |nodes| ==> grown[i].leg == nodes[i].leg && grown[i].scopes == nodes[i].scopes;
  }

  function PresetMember(gs: seq<Real>, n: Node, g: string): seq<Node> {
    if Preset(gs, n) && InGroup(n, g) then [n] else []
  }

  lemma GrownJoin(ns: seq<Node>, gs: seq<Real>, a: seq<Node>, b: seq<Node>)
    ensures GrownAll(ns, gs, a + b) == GrownAll(ns, gs, a) + GrownAll(ns, gs, b)
  {
  }

  lemma RowPresets(ns: seq<Node>, gs: seq<Real>, n: Node, g: string)
    requires Free(gs, g)
    ensures MembersOf(Row(ns, gs, n), g) == GrownAll(ns, gs, PresetMember(gs, n, g))
  {
    OwnIs(gs, n.id);
    if Own(gs, n.id).Some? {
      NoMembers(Row(ns, gs, n), g);
    } else {
      var row := Row(ns, gs, n);
      assert row == [Grown(ns, n, gs)] && row[1..] == [];
    }
  }

  /** A group that is not realized has the recipe's members, and no others. */
  lemma {:induction false} RowsPresets(ns: seq<Node>, gs: seq<Real>, rest: seq<Node>, g: string)
    requires Free(gs, g)
    ensures MembersOf(Rows(ns, gs, rest), g) == GrownAll(ns, gs, PresetMembers(gs, rest, g))
  {
    if rest != [] {
      var row, later := Row(ns, gs, rest[0]), Rows(ns, gs, rest[1..]);
      RowsPresets(ns, gs, rest[1..], g);
      RowPresets(ns, gs, rest[0], g);
      MembersJoin(row, later, g);
      GrownJoin(ns, gs, PresetMember(gs, rest[0], g), PresetMembers(gs, rest[1..], g));
    }
  }

  /** The members of a realized group are its legs, unless the recipe presets its id. */
  lemma MembersAreRow(ns: seq<Node>, gs: seq<Real>, k: nat)
    requires Expandable(ns, gs) && IdsApart(gs) && PresetsClear(ns, gs) && k < |gs|
    ensures MembersOf(Rows(ns, gs, ns), gs[k].group.id) == Row(ns, gs, Find(ns, Anchor(gs[k])))
  {
    assert forall i :: 0 <= i < |ns| ==> ns[i] in ns;
    RowsMembers(ns, gs, ns, k);
  }

  /** Members in the order of their legs need no sorting. */
  lemma HoldsInOrder(nodes: seq<Node>, g: string)
    requires GroupFine(MembersOf(nodes, g))
    ensures GroupHolds(nodes, g)
  {
    SortedAlready(MembersOf(nodes, g));
  }

  /** Where ids are unique, that is the only way for a group to hold. */
  lemma HoldsOnlyInOrder(nodes: seq<Node>, g: string)
    requires UniqueIds(nodes) && GroupHolds(nodes, g)
    ensures GroupFine(MembersOf(nodes, g))
  {
    var members := MembersOf(nodes, g);
    var sorted := SortByIndex(members);
    SortKeeps(members);
    MembersInList(nodes, g);
    forall i | 0 <= i < |members| ensures members[i] == sorted[i] {
      assert IdsOf(members)[i] == IdsOf(sorted)[i];
      assert members[i] in members && sorted[i] in sorted;
      FindUnique(nodes, members[i]);
      FindUnique(nodes, sorted[i]);
    }
    assert members == sorted;
  }

  /** Every group with members is a realized one or one the recipe presets. */
  lemma GroupOrigin(ns: seq<Node>, gs: seq<Real>, g: string)
    requires Expandable(ns, gs) && MembersOf(Rows(ns, gs, ns), g) != [] && Free(gs, g)
    ensures exists i :: 0 <= i < |ns| && Preset(gs, ns[i]) && InGroup(ns[i], g)
  {
    RowsPresets(ns, gs, ns, g);
    SomePreset(gs, ns, g);
  }

  lemma {:induction false} SomePreset(gs: seq<Real>, nodes: seq<Node>, g: string)
    ensures PresetMembers(gs, nodes, g) != [] <==> exists i :: 0 <= i < |nodes| && Preset(gs, nodes[i]) && InGroup(nodes[i], g)
  {
    if nodes != [] {
      SomePreset(gs, nodes[1..], g);
      if i :| 0 <= i < |nodes[1..]| && Preset(gs, nodes[1..][i]) && InGroup(nodes[1..][i], g) { assert nodes[i + 1] == nodes[1..][i]; }
      if i :| 0 <= i < |nodes| && Preset(gs, nodes[i]) && InGroup(nodes[i], g) { assert i > 0 ==> nodes[1..][i - 1] == nodes[i]; }
    }
  }

  lemma FineMeansClear(ns: seq<Node>, gs: seq<Real>)
    requires PresetsFine(ns, gs)
    ensures PresetsClear(ns, gs)
  {
    forall i | 0 <= i < |ns| && Preset(gs, ns[i]) ensures Free(gs, ns[i].leg.value.group) { assert PresetFine(ns, gs, ns[i]); }
  }

  /** The group of any name is fine under the conditions on the recipe. */
  lemma GroupIsFine(ns: seq<Node>, gs: seq<Real>, g: string)
    requires Expandable(ns, gs) && IdsApart(gs) && SiblingsApart(ns, gs) && PresetsFine(ns, gs)
    requires MembersOf(Rows(ns, gs, ns), g) != []
    ensures GroupFine(MembersOf(Rows(ns, gs, ns), g))
  {
    FineMeansClear(ns, gs);
    if k :| 0 <= k < |gs| && gs[k].group.id == g {
      MembersAreRow(ns, gs, k);
      RowFine(ns, gs, k);
    } else {
      GroupOrigin(ns, gs, g);
      var i :| 0 <= i < |ns| && Preset(gs, ns[i]) && InGroup(ns[i], g);
      assert PresetFine(ns, gs, ns[i]);
      RowsPresets(ns, gs, ns, g);
      GrownFine(ns, gs, PresetMembers(gs, ns, g));
    }
  }

  predicate TargetsAgents(ns: seq<Node>, gs: seq<Real>) {
    forall k :: 0 <= k < |gs| && HasId(ns, Anchor(gs[k])) ==> IsAgent(Find(ns, Anchor(gs[k])))
  }

  lemma LegIsAgent(ns: seq<Node>, gs: seq<Real>, n: Node, i: nat)
    requires Expandable(ns, gs) && n in ns && i < Width(gs, n.id) && TargetsAgents(ns, gs) && (Preset(gs, n) ==> IsAgent(n))
    ensures Final(ns, gs, n, i).leg.Some? ==> IsAgent(Final(ns, gs, n, i))
  {
    OwnIs(gs, n.id);
    FinalKeeps(ns, gs, n, i);
    FindUnique(ns, n);
  }

  lemma LegsOfRowsAreAgents(ns: seq<Node>, gs: seq<Real>)
    requires Expandable(ns, gs) && TargetsAgents(ns, gs) && PresetsFine(ns, gs)
    ensures LegsAreAgents(Rows(ns, gs, ns))
  {
    var final := Rows(ns, gs, ns);
    forall t | 0 <= t < |final| ensures final[t].leg.Some? ==> IsAgent(final[t]) {
      MemberIsFinal(ns, gs, final[t]);
      var k, i :| 0 <= k < |ns| && 0 <= i < Width(gs, ns[k].id) && final[t] == Final(ns, gs, ns[k], i);
      assert PresetFine(ns, gs, ns[k]);
      LegIsAgent(ns, gs, ns[k], i);
    }
  }

  /** The conditions on the recipe suffice. */
  lemma RecipeGroupsHold(ns: seq<Node>, gs: seq<Real>)
    requires Expandable(ns, gs) && IdsApart(gs) && TargetsAgents(ns, gs) && SiblingsApart(ns, gs) && PresetsFine(ns, gs)
    ensures GroupsHold(Rows(ns, gs, ns))
  {
    var final := Rows(ns, gs, ns);
    LegsOfRowsAreAgents(ns, gs);
    forall k | 0 <= k < |GroupIds(final)| ensures GroupHolds(final, GroupIds(final)[k]) {
      var g := GroupIds(final)[k];
      assert g in GroupIds(final);
      GroupIsFine(ns, gs, g);
      HoldsInOrder(final, g);
    }
  }

  /** A preset node stays in the expansion, with all it had and what it gained. */
  lemma PresetStays(ns: seq<Node>, gs: seq<Real>, n: Node)
    requires n in ns && Preset(gs, n)
    ensures Grown(ns, n, gs) in Rows(ns, gs, ns)
  {
    var i :| 0 <= i < |ns| && ns[i] == n;
    assert Row(ns, gs, n)[0] == Grown(ns, n, gs);
    RowsHold(ns, gs, ns, Grown(ns, n, gs));
  }

  lemma HoldingGroupFine(ns: seq<Node>, gs: seq<Real>, m: Node)
    requires Expandable(ns, gs) && GroupsHold(Rows(ns, gs, ns)) && m in Rows(ns, gs, ns) && m.leg.Some?
    ensures var members := MembersOf(Rows(ns, gs, ns), m.leg.value.group); GroupFine(members) && m in members
  {
    var final, g := Rows(ns, gs, ns), m.leg.value.group;
    var t :| 0 <= t < |final| && final[t] == m;
    InMembers(final, g, t);
    MemberCounts(final, g);
    var k :| 0 <= k < |GroupIds(final)| && GroupIds(final)[k] == g;
    assert GroupHolds(final, GroupIds(final)[k]);
    assert forall i :: 0 <= i < |ns| ==> ns[i] in ns;
    FinalIdsUnique(ns, gs, ns);
    HoldsOnlyInOrder(final, g);
  }

  /** Two members of one fine group with one index are the same. */
  lemma OnePerIndex(members: seq<Node>, a: Node, b: Node)
    requires GroupFine(members) && a in members && b in members && a.leg.value.index == b.leg.value.index
    ensures a == b
  {
    var i :| 0 <= i < |members| && members[i] == a;
    var j :| 0 <= j < |members| && members[j] == b;
  }

  lemma LegOfGroup(ns: seq<Node>, gs: seq<Real>, k: nat, i: nat)
    requires Expandable(ns, gs) && k < |gs| && i < |gs[k].legs|
    ensures var base := Find(ns, Anchor(gs[k]));
            var m := MakeLeg(Grown(ns, base, gs), gs[k].group, gs[k].legs, i);
            m in Rows(ns, gs, ns) && IsLegOf(ns, gs, m.id, Anchor(gs[k]), i)
  {
    OwnUnique(gs, k);
    var n := Find(ns, Anchor(gs[k]));
    var t :| 0 <= t < |ns| && ns[t] == n;
    MemberIsFinal(ns, gs, Final(ns, gs, n, i));
  }

  /** A preset member of a realized group would stand in the place of one of its legs. */
  lemma PresetIsFree(ns: seq<Node>, gs: seq<Real>, n: Node, k: nat)
    requires Expandable(ns, gs) && GroupsHold(Rows(ns, gs, ns)) && n in ns && Preset(gs, n) && k < |gs|
    ensures gs[k].group.id != n.leg.value.group
  {
    if gs[k].group.id == n.leg.value.group {
      var p := Grown(ns, n, gs);
      PresetStays(ns, gs, n);
      HoldingGroupFine(ns, gs, p);
      var members := MembersOf(Rows(ns, gs, ns), n.leg.value.group);
      PresetIndex(ns, gs, k, members, p);
      var i: nat := p.leg.value.index;
      var leg := MakeLeg(Grown(ns, Find(ns, Anchor(gs[k])), gs), gs[k].group, gs[k].legs, i);
      LegOfGroup(ns, gs, k, i);
      HoldingGroupFine(ns, gs, leg);
      OnePerIndex(members, p, leg);
      FindUnique(ns, n);
      FirstLegIsAnchor(ns, gs, n.id);
      OwnUnique(gs, k);
    }
  }

  lemma PresetIndex(ns: seq<Node>, gs: seq<Real>, k: nat, members: seq<Node>, p: Node)
    requires Expandable(ns, gs) && GroupsHold(Rows(ns, gs, ns)) && k < |gs| && p in members
    requires members == MembersOf(Rows(ns, gs, ns), gs[k].group.id) && GroupFine(members)
    ensures 0 <= p.leg.value.index < |gs[k].legs|
  {
    LegOfGroup(ns, gs, k, 0);
    var leg := MakeLeg(Grown(ns, Find(ns, Anchor(gs[k])), gs), gs[k].group, gs[k].legs, 0);
    HoldingGroupFine(ns, gs, leg);
    var i :| 0 <= i < |members| && members[i] == leg;
    var j :| 0 <= j < |members| && members[j] == p;
  }

  /** The conditions on the recipe are needed. */
  lemma GroupsHoldInRecipe(ns: seq<Node>, gs: seq<Real>)
    requires Expandable(ns, gs) && IdsApart(gs) && GroupsHold(Rows(ns, gs, ns))
    ensures SiblingsApart(ns, gs) && PresetsFine(ns, gs)
  {
    forall i | 0 <= i < |ns| && Preset(gs, ns[i]) ensures Free(gs, ns[i].leg.value.group) {
      forall k | 0 <= k < |gs| ensures gs[k].group.id != ns[i].leg.value.group { PresetIsFree(ns, gs, ns[i], k); }
    }
    assert PresetsClear(ns, gs);
    forall i | 0 <= i < |ns| ensures PresetFine(ns, gs, ns[i]) {
      if Preset(gs, ns[i]) { PresetHolds(ns, gs, ns[i]); }
    }
    forall k | 0 <= k < |gs| && HasId(ns, Anchor(gs[k])) ensures LegsApart(Find(ns, Anchor(gs[k])), gs[k].legs) {
      LegOfGroup(ns, gs, k, 0);
      HoldingGroupFine(ns, gs, MakeLeg(Grown(ns, Find(ns, Anchor(gs[k])), gs), gs[k].group, gs[k].legs, 0));
      MembersAreRow(ns, gs, k);
      RowFine(ns, gs, k);
    }
  }

  lemma PresetHolds(ns: seq<Node>, gs: seq<Real>, n: Node)
    requires Expandable(ns, gs) && GroupsHold(Rows(ns, gs, ns)) && n in ns && Preset(gs, n) && Free(gs, n.leg.value.group)
    ensures PresetFine(ns, gs, n)
  {
    var g := n.leg.value.group;
    PresetStays(ns, gs, n);
    HoldingGroupFine(ns, gs, Grown(ns, n, gs));
    RowsPresets(ns, gs, ns, g);
    GrownFine(ns, gs, PresetMembers(gs, ns, g));
    var final := Rows(ns, gs, ns);
    var t :| 0 <= t < |final| && final[t] == Grown(ns, n, gs);
    assert final[t].leg.Some? ==> IsAgent(final[t]);
  }

  /** For a recipe with fresh leg names, the groups of the expansion hold exactly if the legs of each
      group stay apart and the groups the recipe presets are fine by themselves. */
  lemma GroupsFineExactly(ns: seq<Node>, gs: seq<Real>)
    requires Expandable(ns, gs) && IdsApart(gs) && TargetsAgents(ns, gs)
    ensures GroupsHold(Rows(ns, gs, ns)) <==> SiblingsApart(ns, gs) && PresetsFine(ns, gs)
  {
    if GroupsHold(Rows(ns, gs, ns)) { GroupsHoldInRecipe(ns, gs); }
    if SiblingsApart(ns, gs) && PresetsFine(ns, gs) { RecipeGroupsHold(ns, gs); }
  }
}
