/** Compile, then verify. */
module CompileTheorem {
  import opened Prelude
  import opened Lists
  import opened Graph
  import opened RouteNodes
  import opened Expansion
  import opened ExpansionForm
  import opened ExpansionMeaning
  import opened ExpansionTheorems
  import opened LegNames
  import opened ExpansionSteps
  import opened WorkflowContract
  import opened RouteCompiler
  import opened RouteVerifier
  import opened CompileThenVerify
  import E = Evidence

  /* ---- Copies ---- */

  /** The same in all the verifier asks of a single node but the profile, which a leg brings itself. */
  predicate Copied(reg: Registry, m: Node, n: Node) {
    && SameCore(m, n)
    && (m.profile == n.profile || (n.kind in TARGETS && m.profile.Some? && m.profile.value in reg.registered))
  }

  predicate CopiedFrom(reg: Registry, m: Node, ns: seq<Node>) {
    exists k :: 0 <= k < |ns| && Copied(reg, m, ns[k])
  }

  /** Whatever carries the name of an anchor is of a kind that may have legs. */
  predicate KindsFit(nodes: seq<Node>, groups: seq<Group>) {
    forall i, k :: 0 <= i < |nodes| && 0 <= k < |groups| && nodes[i].id == groups[k].node ==> nodes[i].kind in TARGETS
  }

  predicate ProfilesFit(reg: Registry, groups: seq<Group>) {
    forall k, i :: 0 <= k < |groups| && 0 <= i < |groups[k].legs| ==> groups[k].legs[i].profile in reg.registered
  }

  lemma MadeIsCopied(reg: Registry, m: Node, n: Node, base: Node, g: Group, legs: seq<LegSpec>)
    requires legs != [] && Made(m, n, base, g, legs) && (n.id == base.id ==> n.kind in TARGETS)
    requires forall i :: 0 <= i < |legs| ==> legs[i].profile in reg.registered
    ensures Copied(reg, m, n) && (m.id == n.id || (n.id == base.id && m.kind in TARGETS))
  {
  }

  lemma GroupCopies(reg: Registry, nodes: seq<Node>, g: Group, tier: Tier, m: Node)
    requires ValidGroup(g, tier) && KindsFit(nodes, [g]) && ProfilesFit(reg, [g]) && m in ExpandOne(nodes, g, tier)
    ensures exists k :: 0 <= k < |nodes| && Copied(reg, m, nodes[k]) && (m.id == nodes[k].id || m.kind in TARGETS)
  {
    var legs := RealLegs(g, tier);
    if legs == [] || !HasId(nodes, g.node) {
      var k :| 0 <= k < |nodes| && nodes[k] == m;
      assert Copied(reg, m, nodes[k]);
    } else {
      var base := Find(nodes, g.node);
      StepMember(nodes, base, g, legs, m);
      var k :| 0 <= k < |nodes| && Made(m, nodes[k], base, g, legs);
      assert [g][0] == g;
      MadeIsCopied(reg, m, nodes[k], base, g, legs);
    }
  }

  lemma KindsStay(reg: Registry, nodes: seq<Node>, groups: seq<Group>, tier: Tier)
    requires groups != [] && ValidGroups(groups, tier) && KindsFit(nodes, groups) && ProfilesFit(reg, groups)
    ensures KindsFit(ExpandOne(nodes, groups[0], tier), groups[1..])
  {
    var after := ExpandOne(nodes, groups[0], tier);
    forall i, k | 0 <= i < |after| && 0 <= k < |groups[1..]| && after[i].id == groups[1..][k].node ensures after[i].kind in TARGETS {
      FirstFits(reg, nodes, groups);
      GroupCopies(reg, nodes, groups[0], tier, after[i]);
      var j :| 0 <= j < |nodes| && Copied(reg, after[i], nodes[j]) && (after[i].id == nodes[j].id || after[i].kind in TARGETS);
      assert groups[1..][k] == groups[k + 1];
    }
  }

  lemma FirstFits(reg: Registry, nodes: seq<Node>, groups: seq<Group>)
    requires groups != [] && KindsFit(nodes, groups) && ProfilesFit(reg, groups)
    ensures KindsFit(nodes, [groups[0]]) && ProfilesFit(reg, [groups[0]]) && ProfilesFit(reg, groups[1..])
  {
  }

  /** Every node of the expansion is a copy of a node of the recipe. */
  lemma {:induction false} ExpandCopies(reg: Registry, nodes: seq<Node>, groups: seq<Group>, tier: Tier, m: Node)
    requires ValidGroups(groups, tier) && KindsFit(nodes, groups) && ProfilesFit(reg, groups) && m in Expand(nodes, groups, tier)
    ensures CopiedFrom(reg, m, nodes)
    decreases |groups|
  {
    if groups == [] {
      var k :| 0 <= k < |nodes| && nodes[k] == m;
      assert Copied(reg, m, nodes[k]);
    } else {
      var after := ExpandOne(nodes, groups[0], tier);
      KindsStay(reg, nodes, groups, tier);
      FirstFits(reg, nodes, groups);
      ExpandCopies(reg, after, groups[1..], tier, m);
      var j :| 0 <= j < |after| && Copied(reg, m, after[j]);
      GroupCopies(reg, nodes, groups[0], tier, after[j]);
      var k :| 0 <= k < |nodes| && Copied(reg, after[j], nodes[k]) && (after[j].id == nodes[k].id || after[j].kind in TARGETS);
      assert Copied(reg, m, nodes[k]);
    }
  }

  /* ---- Depth ---- */

  predicate AgentAt(nodes: seq<Node>, depth: nat) {
    exists i :: 0 <= i < |nodes| && IsAgent(nodes[i]) && nodes[i].depth == Some(depth)
  }

  lemma DeepestSame(a: seq<Node>, b: seq<Node>, owner: nat)
    requires forall d :: AgentAt(a, d) ==> AgentAt(b, d)
    ensures Deepest(a, owner) <= Deepest(b, owner)
  {
    var d := Deepest(a, owner);
    if d != owner { assert AgentAt(a, d) && AgentAt(b, d); }
  }

  lemma AgentFromRecipe(reg: Registry, nodes: seq<Node>, groups: seq<Group>, tier: Tier, d: nat)
    requires ValidGroups(groups, tier) && KindsFit(nodes, groups) && ProfilesFit(reg, groups) && AgentAt(Expand(nodes, groups, tier), d)
    ensures AgentAt(nodes, d)
  {
    var final := Expand(nodes, groups, tier);
    var t :| 0 <= t < |final| && IsAgent(final[t]) && final[t].depth == Some(d);
    ExpandCopies(reg, nodes, groups, tier, final[t]);
    var k :| 0 <= k < |nodes| && Copied(reg, final[t], nodes[k]);
  }

  lemma AgentInExpansion(nodes: seq<Node>, groups: seq<Group>, tier: Tier, d: nat)
    requires ValidGroups(groups, tier) && AgentAt(nodes, d)
    ensures AgentAt(Expand(nodes, groups, tier), d)
  {
    var k :| 0 <= k < |nodes| && IsAgent(nodes[k]) && nodes[k].depth == Some(d);
    var m := ExpandKeeps(nodes, groups, tier, nodes[k]);
    var t :| 0 <= t < |Expand(nodes, groups, tier)| && Expand(nodes, groups, tier)[t] == m;
  }

  /** The expansion has the agent depths of the recipe. */
  lemma DepthKept(reg: Registry, nodes: seq<Node>, groups: seq<Group>, tier: Tier, owner: nat)
    requires ValidGroups(groups, tier) && KindsFit(nodes, groups) && ProfilesFit(reg, groups)
    ensures Deepest(Expand(nodes, groups, tier), owner) == Deepest(nodes, owner)
  {
    var final := Expand(nodes, groups, tier);
    forall d | AgentAt(final, d) ensures AgentAt(nodes, d) { AgentFromRecipe(reg, nodes, groups, tier, d); }
    forall d | AgentAt(nodes, d) ensures AgentAt(final, d) { AgentInExpansion(nodes, groups, tier, d); }
    DeepestSame(final, nodes, owner);
    DeepestSame(nodes, final, owner);
  }

  lemma DeepestOwner(nodes: seq<Node>, d: nat)
    requires AgentAt(nodes, d) && d >= 1
    ensures Deepest(nodes, 1) == Deepest(nodes, 0)
  {
    var a, b := Deepest(nodes, 1), Deepest(nodes, 0);
    assert b >= d;
    if a != 1 { assert AgentAt(nodes, a); }
    if b != 0 { assert AgentAt(nodes, b); }
  }

  lemma RecipeFits(reg: Registry, recipe: Recipe)
    requires ValidRecipe(reg, recipe)
    ensures KindsFit(recipe.nodes, recipe.groups) && ProfilesFit(reg, recipe.groups)
    ensures forall k :: 0 <= k < |recipe.groups| ==> HasId(recipe.nodes, recipe.groups[k].node)
  {
    forall k | 0 <= k < |recipe.groups| ensures ValidTarget(reg, recipe.nodes, recipe.groups[k]) {}
    forall i, k | 0 <= i < |recipe.nodes| && 0 <= k < |recipe.groups| && recipe.nodes[i].id == recipe.groups[k].node
      ensures recipe.nodes[i].kind in TARGETS
    {
      FindUnique(recipe.nodes, recipe.nodes[i]);
    }
  }

  lemma StagedDepth(reg: Registry, recipe: Recipe, tier: Tier)
    requires ValidRecipe(reg, recipe) && ValidGroups(recipe.groups, tier)
    requires exists i :: 0 <= i < |Expand(recipe.nodes, recipe.groups, tier)| && Expand(recipe.nodes, recipe.groups, tier)[i].depth == Some(2)
    ensures Deepest(Expand(recipe.nodes, recipe.groups, tier), 1) == recipe.maxDepth
  {
    var ns := recipe.nodes;
    var final := Expand(ns, recipe.groups, tier);
    RecipeFits(reg, recipe);
    var t :| 0 <= t < |final| && final[t].depth == Some(2);
    ExpandCopies(reg, ns, recipe.groups, tier, final[t]);
    var k :| 0 <= k < |ns| && Copied(reg, final[t], ns[k]);
    assert ValidNode(reg, ns[k]) && AgentAt(ns, 2);
    DeepestOwner(ns, 2);
    DepthKept(reg, ns, recipe.groups, tier, 1);
  }

  /* ---- Single nodes ---- */

  /** The keys of a node and the affinity it keeps; depth-2 nodes get theirs from sealing. */
  predicate NodeKeysFine(affinities: set<string>, n: Node) {
    KeysFine(n) && (n.depth != Some(2) && n.keys.affinity.Some? ==> n.keys.affinity.value in affinities)
  }

  predicate KeysHold(affinities: set<string>, nodes: seq<Node>) {
    forall i :: 0 <= i < |nodes| && IsAgent(nodes[i]) ==> NodeKeysFine(affinities, nodes[i])
  }

  /** All the verifier asks of a copy of a valid node, apart from the keys, is given. */
  lemma CopyFine(reg: Registry, affinities: set<string>, tier: Tier, m: Node, n: Node, chain: seq<E.Hop>, table: Option<map<Id, string>>)
    requires ValidRegistry(reg) && ValidAffinity(affinities, table) && !Small(tier) && ValidNode(reg, n) && Copied(reg, m, n)
    ensures NodeFine(reg, affinities, tier, Sealed(m, chain, table)) <==> (IsAgent(m) ==> NodeKeysFine(affinities, m))
  {
    var sealed := Sealed(m, chain, table);
    if m.depth == Some(2) { assert sealed.affinity.Some? && sealed.affinity.value in affinities; }
  }

  lemma {:induction false} NoneBroken(reg: Registry, affinities: set<string>, tier: Tier, nodes: seq<RouteNode>)
    ensures FirstBroken(reg, affinities, tier, nodes) == None <==> forall i :: 0 <= i < |nodes| ==> NodeFine(reg, affinities, tier, nodes[i])
  {
    if nodes != [] {
      NoneBroken(reg, affinities, tier, nodes[1..]);
      assert forall i :: 0 < i < |nodes| ==> nodes[i] == nodes[1..][i - 1];
    }
  }

  /** The verifier's look at every single node passes exactly if their keys are fine. */
  lemma NodesFineExactly(reg: Registry, affinities: set<string>, recipe: Recipe, tier: Tier, chain: seq<E.Hop>, table: Option<map<Id, string>>)
    requires ValidRegistry(reg) && ValidRecipe(reg, recipe) && ValidAffinity(affinities, table) && !Small(tier)
    requires ValidGroups(recipe.groups, tier)
    ensures var final := Expand(recipe.nodes, recipe.groups, tier);
            FirstBroken(reg, affinities, tier, SealAll(final, chain, table)) == None <==> KeysHold(affinities, final)
  {
    var final := Expand(recipe.nodes, recipe.groups, tier);
    var sealed := SealAll(final, chain, table);
    RecipeFits(reg, recipe);
    NoneBroken(reg, affinities, tier, sealed);
    forall t | 0 <= t < |final| ensures NodeFine(reg, affinities, tier, sealed[t]) <==> (IsAgent(final[t]) ==> NodeKeysFine(affinities, final[t])) {
      ExpandCopies(reg, recipe.nodes, recipe.groups, tier, final[t]);
      var k :| 0 <= k < |recipe.nodes| && Copied(reg, final[t], recipe.nodes[k]);
      CopyFine(reg, affinities, tier, final[t], recipe.nodes[k], chain, table);
    }
    FineEverywhere(reg, affinities, tier, final, sealed);
  }

  lemma FineEverywhere(reg: Registry, affinities: set<string>, tier: Tier, final: seq<Node>, sealed: seq<RouteNode>)
    requires |final| == |sealed|
    requires forall t :: 0 <= t < |final| ==> (NodeFine(reg, affinities, tier, sealed[t]) <==> (IsAgent(final[t]) ==> NodeKeysFine(affinities, final[t])))
    ensures (forall t :: 0 <= t < |sealed| ==> NodeFine(reg, affinities, tier, sealed[t])) <==> KeysHold(affinities, final)
  {
  }

  lemma {:induction false} NoBrokenGroup(nodes: seq<Node>, ids: seq<string>)
    ensures BrokenGroup(nodes, ids) == None <==> forall k :: 0 <= k < |ids| ==> GroupFine(GroupMembers(nodes, ids[k]))
  {
    if ids != [] {
      NoBrokenGroup(nodes, ids[1..]);
      assert forall k :: 0 < k < |ids| ==> ids[k] == ids[1..][k - 1];
    }
  }

  lemma {:induction false} NoHopsError(nodes: seq<RouteNode>, chain: seq<E.Hop>)
    requires forall i :: 0 <= i < |nodes| ==> HopsFine(nodes[i], chain)
    ensures HopsError(nodes, chain) == None
  {
    if nodes != [] { NoHopsError(nodes[1..], chain); }
  }

  /* ---- Shape ---- */

  lemma StagedShape(nodes: seq<Node>, ownerDepth: nat, dispatch: E.Checked, table: Option<map<Id, string>>, r: Route)
    requires ParentDepth(nodes, ownerDepth).Ok? && E.Normalize(dispatch, 1).Ok?
    requires var checked := E.Normalize(dispatch, 1).value;
             && E.FallbackChain(checked, 1).Ok?
             && r.nodes == SealAll(nodes, E.FallbackChain(checked, 1).value, table)
             && r.evidence == Some(checked) && r.ownerDepth == ownerDepth && r.launch == Headless
    ensures Bare(r.nodes) == nodes && StagedError(r) == None
  {
    var checked := E.Normalize(dispatch, 1).value;
    var chain := E.FallbackChain(checked, 1).value;
    assert Bare(r.nodes) == nodes;
    E.NormalizeIdempotent(dispatch, 1);
    E.ChainReproduced(checked, 1);
    forall i | 0 <= i < |r.nodes| ensures HopsFine(r.nodes[i], chain) {}
    NoHopsError(r.nodes, chain);
  }

  /* ---- The theorem ---- */

  ghost predicate Usable(reg: Registry, affinities: set<string>, recipe: Recipe, req: Request) {
    ValidRegistry(reg) && ValidRecipe(reg, recipe) && ValidAffinity(affinities, req.affinity)
  }

  lemma GraphErrorIs(reg: Registry, affinities: set<string>, r: Route, nodes: seq<Node>)
    requires nodes == Bare(r.nodes) && r.groups == Summary(nodes) && ShapeError(reg, r) == None
    requires r.maxDepth == Deepest(nodes, r.ownerDepth)
    ensures GraphError(reg, affinities, r) == None <==> FirstBroken(reg, affinities, r.tier, r.nodes) == None && SummaryFine(nodes)
  {
    NoBrokenGroup(nodes, GroupIds(Agents(nodes)));
  }

  lemma ExtensionsAnchored(reg: Registry, recipe: Recipe, tier: Tier)
    requires ValidRecipe(reg, recipe) && ValidGroups(recipe.groups, tier)
    ensures Anchored(recipe.extensions, Expand(recipe.nodes, recipe.groups, tier))
  {
    forall x | x in Ids(recipe.nodes) ensures x in Ids(Expand(recipe.nodes, recipe.groups, tier)) {
      var i :| 0 <= i < |recipe.nodes| && recipe.nodes[i].id == x;
      var m := ExpandKeeps(recipe.nodes, recipe.groups, tier, recipe.nodes[i]);
    }
  }

  lemma DepthAtMostTwo(reg: Registry, recipe: Recipe)
    requires ValidRecipe(reg, recipe)
    ensures recipe.maxDepth <= 2
  {
    if recipe.maxDepth != 0 {
      var i :| 0 <= i < |recipe.nodes| && IsAgent(recipe.nodes[i]) && recipe.nodes[i].depth == Some(recipe.maxDepth);
      assert ValidNode(reg, recipe.nodes[i]);
    }
  }

  lemma FinishFields(reg: Registry, recipe: Recipe, req: Request, tier: Tier, nodes: seq<RouteNode>, launch: Launch,
                     reason: Option<string>, evidence: Option<E.Checked>, candidates: Option<seq<E.HeadlessRow>>, r: Route)
    requires Finish(reg, recipe, req, tier, nodes, launch, reason, evidence, candidates) == Ok(r)
    ensures r.tier == tier && r.launch == launch && r.inlineReason == reason && r.evidence == evidence && r.candidates == candidates
    ensures r.nodes == nodes && r.groups == Summary(Bare(nodes)) && ContractOf(Bare(nodes)) == Some(r.contract)
    ensures r.ownerProfile == ProfileFor(reg, tier) && r.extensions == RealExtensions(recipe, tier)
    ensures r.bindings == Bindings(recipe, tier) && r.humanGates == recipe.humanGates && r.serial == (tier == Quick)
    ensures r.ownerDepth == (if tier == Direct then 0 else if tier == Quick then 1 else recipe.ownerDepth)
    ensures r.maxDepth == (if tier == Direct then 0 else if tier == Quick then 1 else recipe.maxDepth)
    ensures r.composed == (if req.composed then Some(recipe) else None)
    ensures r.tracking == req.tracking && r.gate == req.gate && r.escalation == req.signals && r.specTouch == SpecTouch(nodes)
  {
  }

  lemma StagedParts(reg: Registry, recipe: Recipe, req: Request, tier: Tier, r: Route)
    requires ValidGroups(recipe.groups, tier) && CompileStaged(reg, recipe, req, tier) == Ok(r)
    ensures var nodes := Expand(recipe.nodes, recipe.groups, tier);
            && ParentDepth(nodes, recipe.ownerDepth) == Ok(1) && E.Normalize(req.dispatch, 1).Ok?
            && var checked := E.Normalize(req.dispatch, 1).value;
               && E.FallbackChain(checked, 1).Ok?
               && Finish(reg, recipe, req, tier, SealAll(nodes, E.FallbackChain(checked, 1).value, req.affinity),
                         Headless, None, Some(checked), None) == Ok(r)
    ensures GateFine(req.tracking, req.gate)
  {
  }

  lemma CompileIsStaged(reg: Registry, recipe: Recipe, req: Request, tier: Tier)
    requires tier == Effective(recipe, req) && !Small(tier) && forall t :: !Small(t) ==> ValidGroups(recipe.groups, t)
    requires Compile(reg, recipe, req).Ok?
    ensures ValidGroups(recipe.groups, tier) && Compile(reg, recipe, req) == CompileStaged(reg, recipe, req, tier)
    ensures req.signals * TRACKING == {}
  {
  }

  lemma StagedRoute(reg: Registry, recipe: Recipe, req: Request, tier: Tier) returns (r: Route)
    requires (forall t :: !Small(t) ==> ValidGroups(recipe.groups, t)) && ValidGroups(recipe.groups, tier)
    requires Compile(reg, recipe, req).Ok? && tier == Effective(recipe, req) && !Small(tier)
    ensures Compile(reg, recipe, req) == Ok(r)
    ensures r.tier == tier && r.ownerDepth == recipe.ownerDepth && r.maxDepth == recipe.maxDepth && r.launch == Headless
    ensures r.ownerProfile == ProfileFor(reg, tier) && r.extensions == recipe.extensions && r.bindings == recipe.bindings
    ensures r.humanGates == recipe.humanGates && r.composed in {None, Some(recipe)}
    ensures var nodes := Expand(recipe.nodes, recipe.groups, tier);
            && ParentDepth(nodes, recipe.ownerDepth) == Ok(1) && E.Normalize(req.dispatch, 1).Ok?
            && var checked := E.Normalize(req.dispatch, 1).value;
               && r.evidence == Some(checked) && E.FallbackChain(checked, 1).Ok?
               && r.nodes == SealAll(nodes, E.FallbackChain(checked, 1).value, req.affinity)
    ensures r.groups == Summary(Bare(r.nodes)) && ContractOf(Bare(r.nodes)) == Some(r.contract)
    ensures GateFine(r.tracking, r.gate) && r.escalation * TRACKING == {} && r.specTouch == SpecTouch(r.nodes)
  {
    CompileIsStaged(reg, recipe, req, tier);
    r := CompileStaged(reg, recipe, req, tier).value;
    StagedParts(reg, recipe, req, tier, r);
    var checked := E.Normalize(req.dispatch, 1).value;
    var nodes := SealAll(Expand(recipe.nodes, recipe.groups, tier), E.FallbackChain(checked, 1).value, req.affinity);
    assert Finish(reg, recipe, req, tier, nodes, Headless, None, Some(checked), None) == Ok(r);
    FinishFields(reg, recipe, req, tier, nodes, Headless, None, Some(checked), None, r);
  }

  lemma VerifyIs(reg: Registry, affinities: set<string>, recipe: Recipe, r: Route)
    requires ValidGroups(recipe.groups, r.tier) && !Small(r.tier) && r.composed in {None, Some(recipe)}
    requires Bare(r.nodes) == Expand(recipe.nodes, recipe.groups, r.tier)
    requires r.extensions == recipe.extensions && Anchored(r.extensions, Bare(r.nodes)) && r.bindings == recipe.bindings
    requires ContractOf(Bare(r.nodes)) == Some(r.contract) && GatesDeclared(r.bindings, r.humanGates)
    requires r.ownerDepth <= 1 && r.maxDepth <= 2 && r.ownerProfile == ProfileFor(reg, r.tier)
    ensures HeldAgainst(recipe, r) == recipe
    ensures Verify(reg, affinities, recipe, r) == GraphError(reg, affinities, r)
  {
  }

  /** A compiled route of a standard or higher tier verifies under the registry it was compiled with,
      exactly if the keys its expanded nodes carry are fine and its groups hold. */
  lemma StagedRouteVerifies(reg: Registry, affinities: set<string>, recipe: Recipe, req: Request)
    requires Usable(reg, affinities, recipe, req) && Compile(reg, recipe, req).Ok? && !Small(Effective(recipe, req))
    ensures ValidGroups(recipe.groups, Effective(recipe, req))
    ensures HeldAgainst(recipe, Compile(reg, recipe, req).value) == recipe
    ensures Compile(reg, recipe, req).value.tier == Effective(recipe, req)
    ensures var final := Expand(recipe.nodes, recipe.groups, Effective(recipe, req));
            Verify(reg, affinities, recipe, Compile(reg, recipe, req).value) == None <==> KeysHold(affinities, final) && GroupsHold(final)
  {
    var tier := Effective(recipe, req);
    assert ValidGroups(recipe.groups, tier);
    var r := StagedRoute(reg, recipe, req, tier);
    var nodes := Expand(recipe.nodes, recipe.groups, tier);
    StagedShape(nodes, recipe.ownerDepth, req.dispatch, req.affinity, r);
    NodesFineExactly(reg, affinities, recipe, tier, E.FallbackChain(E.Normalize(req.dispatch, 1).value, 1).value, req.affinity);
    ExtensionsAnchored(reg, recipe, tier);
    DepthAtMostTwo(reg, recipe);
    VerifyIs(reg, affinities, recipe, r);
    StagedDepth(reg, recipe, tier);
    GraphErrorIs(reg, affinities, r, nodes);
    GroupsHoldExactly(nodes);
  }

  /* ---- The condition on the recipe ---- */

  /** The keys of a recipe's agents; the group keys only matter where no group is realized. */
  predicate RecipeKeysFine(affinities: set<string>, gs: seq<Real>, n: Node) {
    && !n.keys.dispatchFallback
    && (n.keys.surface.Some? ==> n.keys.surface.value in SURFACES)
    && n.keys.registered != Some(NotBoolean)
    && (n.depth != Some(2) && n.keys.affinity.Some? ==> n.keys.affinity.value in affinities)
    && (Preset(gs, n) ==> n.leg.value.alias == Some(n.leg.value.group))
  }

  predicate RecipeKeysHold(affinities: set<string>, ns: seq<Node>, gs: seq<Real>) {
    forall i :: 0 <= i < |ns| && IsAgent(ns[i]) ==> RecipeKeysFine(affinities, gs, ns[i])
  }

  lemma FinalKeys(affinities: set<string>, ns: seq<Node>, gs: seq<Real>, n: Node, i: nat)
    requires i < Width(gs, n.id)
    ensures NodeKeysFine(affinities, Final(ns, gs, n, i)) <==> RecipeKeysFine(affinities, gs, n)
    ensures IsAgent(Final(ns, gs, n, i)) <==> IsAgent(n)
  {
    FinalKeeps(ns, gs, n, i);
    OwnIs(gs, n.id);
  }

  lemma KeysHoldExactly(affinities: set<string>, ns: seq<Node>, gs: seq<Real>)
    requires Expandable(ns, gs)
    ensures KeysHold(affinities, Rows(ns, gs, ns)) <==> RecipeKeysHold(affinities, ns, gs)
  {
    var final := Rows(ns, gs, ns);
    if RecipeKeysHold(affinities, ns, gs) {
      forall t | 0 <= t < |final| && IsAgent(final[t]) ensures NodeKeysFine(affinities, final[t]) {
        MemberIsFinal(ns, gs, final[t]);
        var k, i :| 0 <= k < |ns| && 0 <= i < Width(gs, ns[k].id) && final[t] == Final(ns, gs, ns[k], i);
        FinalKeys(affinities, ns, gs, ns[k], i);
      }
    }
    if KeysHold(affinities, final) {
      forall k | 0 <= k < |ns| && IsAgent(ns[k]) ensures RecipeKeysFine(affinities, gs, ns[k]) {
        FindUnique(ns, ns[k]);
        FirstLegIsAnchor(ns, gs, ns[k].id);
        var m := Final(ns, gs, ns[k], 0);
        FinalKeys(affinities, ns, gs, ns[k], 0);
        MemberIsFinal(ns, gs, m);
        var t :| 0 <= t < |final| && final[t] == m;
      }
    }
  }

  lemma RealizedIdsApart(reg: Registry, recipe: Recipe, tier: Tier)
    requires ValidRecipe(reg, recipe) && ValidGroups(recipe.groups, tier)
    ensures IdsApart(Realized(recipe.groups, tier))
  {
    var gs := Realized(recipe.groups, tier);
    var key := (g: Group) => g.id;
    assert KeysApart(recipe.groups, key);
    RealizedApart(recipe.groups, tier, key);
    forall j, k | 0 <= j < k < |gs| ensures gs[j].group.id != gs[k].group.id { assert key(gs[j].group) != key(gs[k].group); }
  }

  lemma RealizedTarget(ns: seq<Node>, groups: seq<Group>, tier: Tier, r: Real)
    requires ValidGroups(groups, tier) && KindsFit(ns, groups) && r in Realized(groups, tier)
    requires forall k :: 0 <= k < |groups| ==> HasId(ns, groups[k].node)
    ensures HasId(ns, Anchor(r)) && IsAgent(Find(ns, Anchor(r)))
  {
    RealizedFrom(groups, tier, r);
    var j :| 0 <= j < |groups| && r.group == groups[j];
    var n := Find(ns, groups[j].node);
    var i :| 0 <= i < |ns| && ns[i] == n;
    assert ns[i].kind in TARGETS;
  }

  lemma RealizedFits(reg: Registry, recipe: Recipe, tier: Tier)
    requires ValidRecipe(reg, recipe) && ValidGroups(recipe.groups, tier)
    ensures TargetsAgents(recipe.nodes, Realized(recipe.groups, tier))
  {
    RecipeFits(reg, recipe);
    AllTargets(recipe.nodes, recipe.groups, tier);
  }

  lemma AllTargets(ns: seq<Node>, groups: seq<Group>, tier: Tier)
    requires ValidGroups(groups, tier) && KindsFit(ns, groups)
    requires forall k :: 0 <= k < |groups| ==> HasId(ns, groups[k].node)
    ensures TargetsAgents(ns, Realized(groups, tier))
  {
    var gs := Realized(groups, tier);
    forall k | 0 <= k < |gs| ensures HasId(ns, Anchor(gs[k])) ==> IsAgent(Find(ns, Anchor(gs[k]))) {
      RealizedTarget(ns, groups, tier, gs[k]);
    }
  }

  /** With fresh leg names the condition is one on the recipe: the keys its nodes carry are fine, the
      legs of each group stay apart, and groups it presets by itself are fine. */
  lemma StagedRecipeVerifies(reg: Registry, affinities: set<string>, recipe: Recipe, req: Request)
    requires Usable(reg, affinities, recipe, req) && Compile(reg, recipe, req).Ok? && !Small(Effective(recipe, req))
    requires ValidGroups(recipe.groups, Effective(recipe, req)) && Sound(recipe.nodes, recipe.groups, Effective(recipe, req))
    ensures HeldAgainst(recipe, Compile(reg, recipe, req).value) == recipe
    ensures Compile(reg, recipe, req).value.tier == Effective(recipe, req)
    ensures var gs := Realized(recipe.groups, Effective(recipe, req));
            Verify(reg, affinities, recipe, Compile(reg, recipe, req).value) == None <==>
            RecipeKeysHold(affinities, recipe.nodes, gs) && SiblingsApart(recipe.nodes, gs) && PresetsFine(recipe.nodes, gs)
  {
    var tier := Effective(recipe, req);
    var gs := Realized(recipe.groups, tier);
    StagedRouteVerifies(reg, affinities, recipe, req);
    ExpandIsClosedForm(recipe.nodes, recipe.groups, tier);
    RealizedIdsApart(reg, recipe, tier);
    RealizedFits(reg, recipe, tier);
    KeysHoldExactly(affinities, recipe.nodes, gs);
    GroupsFineExactly(recipe.nodes, gs);
  }

  /* ---- Small routes ---- */

  lemma OneNode(reg: Registry, affinities: set<string>, r: Route, rn: RouteNode)
    requires r.nodes == [rn] && rn.node.leg.None? && NodeFine(reg, affinities, r.tier, rn)
    requires r.groups == Summary(Bare(r.nodes)) && IsAgent(rn.node) && rn.node.depth == Some(r.ownerDepth) && r.maxDepth == r.ownerDepth
    requires ShapeError(reg, r) == None
    ensures GraphError(reg, affinities, r) == None
  {
    var nodes := [rn.node];
    assert r.nodes[1..] == [] && nodes[1..] == [] && nodes[..0] == [];
    assert Bare(r.nodes) == nodes && Agents(nodes) == nodes && GroupIds(nodes) == [];
    assert Deepest(nodes[1..], r.ownerDepth) == r.ownerDepth;
    NoneBroken(reg, affinities, r.tier, r.nodes);
    assert GroupsHold(nodes);
    GroupsHoldExactly(nodes);
    GraphErrorIs(reg, affinities, r, nodes);
  }

  lemma SmallVerifyIs(reg: Registry, affinities: set<string>, recipe: Recipe, r: Route, rn: RouteNode)
    requires Small(r.tier) && r.composed.None? && r.nodes == [rn]
    requires r.extensions == EndOnly(recipe.extensions, rn.node.id) == RealExtensions(recipe, r.tier) && r.bindings == []
    requires ContractOf(Bare(r.nodes)) == Some(r.contract)
    requires r.ownerDepth <= 1 && r.maxDepth <= 2 && r.ownerProfile == ProfileFor(reg, r.tier)
    ensures Verify(reg, affinities, recipe, r) == GraphError(reg, affinities, r)
  {
    assert Bare(r.nodes)[0].id in Ids(Bare(r.nodes));
  }

  lemma DirectRoute(reg: Registry, recipe: Recipe, req: Request, r: Route) returns (reason: string)
    requires CompileDirect(reg, recipe, req) == Ok(r)
    ensures GateFine(req.tracking, req.gate)
    ensures Finish(reg, recipe, req, Direct, [RouteNode(InlineNode(recipe), None, None)], Interactive, Some(reason), None, None) == Ok(r)
  {
    reason := if req.inlineReason.None? then "atomic-direct" else req.inlineReason.value;
  }

  /** Direct routes always verify. */
  lemma DirectRouteVerifies(reg: Registry, affinities: set<string>, recipe: Recipe, req: Request)
    requires Usable(reg, affinities, recipe, req) && Compile(reg, recipe, req).Ok? && Effective(recipe, req) == Direct
    ensures Compile(reg, recipe, req).value.tier == Direct
    ensures Verify(reg, affinities, recipe, Compile(reg, recipe, req).value) == None
  {
    var r := Compile(reg, recipe, req).value;
    var reason := DirectRoute(reg, recipe, req, r);
    var rn := RouteNode(InlineNode(recipe), None, None);
    FinishFields(reg, recipe, req, Direct, [rn], Interactive, Some(reason), None, None, r);
    DirectShapeFine(reg, r, rn);
    SmallVerifyIs(reg, affinities, recipe, r, rn);
    OneNode(reg, affinities, r, rn);
  }

  lemma DirectShapeFine(reg: Registry, r: Route, rn: RouteNode)
    requires r.tier == Direct && r.nodes == [rn] && r.candidates.None? && !r.serial
    requires r.ownerDepth == 0 && r.maxDepth == 0 && r.launch == Interactive
    requires rn.node.id == "inline" && rn.node.depth == Some(0) && rn.hops.None?
    requires rn.node.keys.surface == Some("inline") && rn.node.keys.registered == Some(Flag(false))
    requires GateFine(r.tracking, r.gate) && r.escalation * TRACKING == {} && r.specTouch == SpecTouch(r.nodes)
    ensures ShapeError(reg, r) == None
  {
  }

  /** A detached run as quick worker cannot be sealed, so a quick route has an agent node. */
  lemma QuickNodeIsAgent(nodes: seq<Node>)
    requires |nodes| == 1 && nodes[0].deps == [] && ContractOf(nodes).Some?
    ensures IsAgent(nodes[0])
  {
    assert Seals(nodes[0], !HasDependent(nodes, nodes[0].id));
  }

  lemma QuickRoute(reg: Registry, recipe: Recipe, req: Request, r: Route)
    requires CompileQuick(reg, recipe, req) == Ok(r)
    ensures E.NormalizeHeadless(req.headless).Ok? && GateFine(req.tracking, req.gate)
    ensures Finish(reg, recipe, req, Quick, [RouteNode(QuickNode(reg, recipe), None, None)], Headless, None, None,
                   Some(E.NormalizeHeadless(req.headless).value)) == Ok(r)
  {
  }

  /** Quick routes always verify. */
  lemma QuickRouteVerifies(reg: Registry, affinities: set<string>, recipe: Recipe, req: Request)
    requires Usable(reg, affinities, recipe, req) && Compile(reg, recipe, req).Ok? && Effective(recipe, req) == Quick
    ensures Compile(reg, recipe, req).value.tier == Quick
    ensures Verify(reg, affinities, recipe, Compile(reg, recipe, req).value) == None
  {
    var r := Compile(reg, recipe, req).value;
    QuickRoute(reg, recipe, req, r);
    var rn := RouteNode(QuickNode(reg, recipe), None, None);
    var rows := E.NormalizeHeadless(req.headless).value;
    FinishFields(reg, recipe, req, Quick, [rn], Headless, None, None, Some(rows), r);
    E.HeadlessIdempotent(req.headless);
    QuickNodeIsAgent(Bare(r.nodes));
    QuickShapeFine(reg, r, rn, rows);
    SmallVerifyIs(reg, affinities, recipe, r, rn);
    OneNode(reg, affinities, r, rn);
  }

  lemma QuickShapeFine(reg: Registry, r: Route, rn: RouteNode, rows: seq<E.HeadlessRow>)
    requires r.tier == Quick && r.nodes == [rn] && r.candidates == Some(rows) && E.NormalizeHeadless(rows) == Ok(rows)
    requires r.ownerDepth == 1 && r.maxDepth == 1 && r.launch == Headless && r.inlineReason.None? && r.serial
    requires rn.node.id == "one-shot" && rn.node.depth == Some(1) && rn.node.unit == "_kernel/owner"
    requires rn.node.profile == ProfileFor(reg, Quick) && rn.hops.None?
    requires rn.node.keys.surface == Some("registered-headless") && rn.node.keys.registered == Some(Flag(true))
    requires GateFine(r.tracking, r.gate) && r.escalation * TRACKING == {} && r.specTouch == SpecTouch(r.nodes)
    ensures ShapeError(reg, r) == None
  {
  }
}
