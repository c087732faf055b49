/** What a request is compiled to, told in its own fields: the tier, when it is refused, and the route. */
module CompileOutcome {
  import opened Prelude
  import opened RouteNodes
  import opened Scopes
  import opened Expansion
  import opened WorkflowContract
  import opened RouteCompiler
  import E = Evidence
  import opened EvidenceOutcome
  import opened VerifySound

  ghost predicate Groups(recipe: Recipe) {
    forall t :: !Small(t) ==> ValidGroups(recipe.groups, t)
  }

  /* ---- The tier ---- */

  /** Direct is asked for, nothing speaks against it, and all that speaks for it is there. */
  predicate DirectDue(recipe: Recipe, req: Request) {
    req.requested == Some(Direct) && req.signals == {} && req.predicates == recipe.predicates
  }

  predicate QuickDue(recipe: Recipe, req: Request) {
    req.signals == {} && (req.requested == Some(Quick) || (req.requested == Some(Direct) && req.predicates != recipe.predicates))
  }

  /** Otherwise the tier asked for; standard for `auto` and for small tiers a signal speaks against. */
  function StagedDue(req: Request): Tier {
    match req.requested
    case None => Standard
    case Some(Direct) => Standard
    case Some(Quick) => Standard
    case Some(t) => t
  }

  lemma TierIs(recipe: Recipe, req: Request)
    ensures Effective(recipe, req) ==
            if DirectDue(recipe, req) then Direct else if QuickDue(recipe, req) then Quick else StagedDue(req)
  {
  }

  lemma CompiledAt(reg: Registry, recipe: Recipe, req: Request, r: Route)
    requires Groups(recipe) && Compile(reg, recipe, req) == Ok(r)
    ensures r.tier == Effective(recipe, req)
  {
  }

  /** The tier of a compiled route. */
  lemma CompiledTier(reg: Registry, recipe: Recipe, req: Request, r: Route)
    requires Groups(recipe) && Compile(reg, recipe, req) == Ok(r)
    ensures req.signals != {} ==> r.tier in {Standard, Strong, Thorough, Adversarial}
    ensures r.tier == Direct <==> req.requested == Some(Direct) && req.signals == {} && req.predicates == recipe.predicates
    ensures r.tier == Quick <==>
            req.signals == {} && (req.requested == Some(Quick) || (req.requested == Some(Direct) && req.predicates != recipe.predicates))
    ensures req.requested == None ==> r.tier == Standard
    ensures req.requested in {Some(Standard), Some(Strong), Some(Thorough), Some(Adversarial)} ==> Some(r.tier) == req.requested
    ensures req.requested in {Some(Direct), Some(Quick)} && req.signals != {} ==> r.tier == Standard
  {
    CompiledAt(reg, recipe, req, r);
    TierIs(recipe, req);
  }

  /* ---- When a request is refused ---- */

  predicate KnownRequest(recipe: Recipe, req: Request) {
    && req.predicates <= recipe.predicates && req.signals <= recipe.signals
    && "tracked" !in req.signals && "untracked" !in req.signals
  }

  predicate GateShown(tracking: Tracking, g: GateEvidence) {
    && g.mode == tracking && g.drift != "" && g.specRead.source != "" && g.artifactGuard.source != ""
    && (tracking == Tracked ==> g.specRead.satisfied && g.artifactGuard.satisfied)
  }

  lemma KnownIs(req: Request)
    ensures req.signals * TRACKING == {} <==> "tracked" !in req.signals && "untracked" !in req.signals
  {
    assert "tracked" in TRACKING && "untracked" in TRACKING;
    assert "tracked" in req.signals ==> "tracked" in req.signals * TRACKING;
    assert "untracked" in req.signals ==> "untracked" in req.signals * TRACKING;
  }

  lemma CompileIs(reg: Registry, recipe: Recipe, req: Request, tier: Tier)
    requires Groups(recipe) && tier == Effective(recipe, req)
    ensures Compile(reg, recipe, req).Ok? <==>
            && KnownRequest(recipe, req) && !(req.composed && tier in {Direct, Quick})
            && (if tier == Direct then CompileDirect(reg, recipe, req)
                else if tier == Quick then CompileQuick(reg, recipe, req) else CompileStaged(reg, recipe, req, tier)).Ok?
    ensures Compile(reg, recipe, req).Ok? ==>
              (Compile(reg, recipe, req) ==
               if tier == Direct then CompileDirect(reg, recipe, req)
               else if tier == Quick then CompileQuick(reg, recipe, req) else CompileStaged(reg, recipe, req, tier))
  {
    KnownIs(req);
  }

  /** What is refused before anything else is looked at, and in which order. */
  lemma RefusedAtOnce(reg: Registry, recipe: Recipe, req: Request)
    requires Groups(recipe)
    ensures !(req.predicates <= recipe.predicates) ==> Compile(reg, recipe, req) == Err(UnknownPredicates)
    ensures req.predicates <= recipe.predicates && ("tracked" in req.signals || "untracked" in req.signals) ==>
              Compile(reg, recipe, req) == Err(TrackingSignal)
    ensures req.predicates <= recipe.predicates && "tracked" !in req.signals && "untracked" !in req.signals ==>
              !(req.signals <= recipe.signals) ==> Compile(reg, recipe, req) == Err(UnknownSignals)
    ensures KnownRequest(recipe, req) && req.composed && (DirectDue(recipe, req) || QuickDue(recipe, req)) ==>
              Compile(reg, recipe, req) == Err(ComposedTooSmall)
  {
    KnownIs(req);
    TierIs(recipe, req);
  }

  /* ---- Small routes ---- */

  /** What routes of every tier take over from request and recipe. */
  predicate TakenOver(recipe: Recipe, req: Request, r: Route) {
    && r.tracking == req.tracking && r.gate == req.gate && r.escalation == req.signals && r.humanGates == recipe.humanGates
    && r.composed == (if req.composed then Some(recipe) else None)
    && (r.specTouch <==> WritesSpec(r.nodes))
    && |r.extensions| == |recipe.extensions|
    && forall i :: 0 <= i < |r.extensions| ==> ExtensionTaken(recipe.extensions[i], r.extensions[i], r.tier)
  }

  predicate ExtensionTaken(given: Extension, row: Extension, tier: Tier) {
    && row.id == given.id
    && row.after == (if tier == Direct then {"inline"} else if tier == Quick then {"one-shot"} else given.after)
  }

  lemma FinishTakesOver(reg: Registry, recipe: Recipe, req: Request, tier: Tier, nodes: seq<RouteNode>, launch: Launch,
                        reason: Option<string>, evidence: Option<E.Checked>, candidates: Option<seq<E.HeadlessRow>>, r: Route)
    requires Finish(reg, recipe, req, tier, nodes, launch, reason, evidence, candidates) == Ok(r)
    ensures r.nodes == nodes && r.tier == tier && TakenOver(recipe, req, r)
    ensures r.launch == launch && r.inlineReason == reason && r.evidence == evidence && r.candidates == candidates
    ensures r.ownerProfile == OwnerOf(reg, tier) && r.serial == (tier == Quick)
    ensures r.ownerDepth == (if tier == Direct then 0 else if tier == Quick then 1 else recipe.ownerDepth)
    ensures r.maxDepth == (if tier == Direct then 0 else if tier == Quick then 1 else recipe.maxDepth)
    ensures r.bindings == (if tier in {Direct, Quick} then [] else recipe.bindings)
    ensures ContractOf(Bare(nodes)) == Some(r.contract) && r.groups == Summary(Bare(nodes))
  {
    SpecSound(nodes);
  }

  /** The contract of a route with one node. */
  lemma OneContract(n: Node)
    requires n.deps == [] && n.terminal == Some(true) && n.terminalGate.Some? && n.terminalGate.value != ""
    ensures ContractOf([n]).Some? <==> n.kind != ResourceRunner
    ensures ContractOf([n]).Some? ==> ContractOf([n]) == Some(Contract({n.id}, map[]))
  {
    assert !HasDependent([n], n.id) && [n][0] == n;
    if n.kind != ResourceRunner {
      var c := Contract({n.id}, map[]);
      assert NodeSealed([n], n);
      forall id ensures id in c.terminals <==> HasId([n], id) && !Wanted([n], id) {}
      SealedIsContract([n], c);
    } else {
      assert !Seals([n][0], true);
    }
  }

  lemma OneSummary(n: Node)
    requires n.leg.None?
    ensures Summary([n]) == []
  {
    assert [n][..0] == [] && GroupIds([]) == [];
    assert GroupIds([n]) == [];
  }

  predicate IsInline(recipe: Recipe, n: Node) {
    n == Node("inline", CapabilityOwner, "", Some(0), None, [], [], [], recipe.quickScopes, "inline-complete", Some(true),
              Some("inline-complete"), None, None, Keys(false, Some("inline"), Some(Flag(false)), None))
  }

  predicate IsOneShot(reg: Registry, recipe: Recipe, n: Node) {
    n == Node("one-shot", recipe.quickKind, "_kernel/owner", Some(1), OwnerOf(reg, Quick), [], [], [], recipe.quickScopes, "quick-complete",
              Some(true), Some("quick-complete"), None, None, Keys(false, Some("registered-headless"), Some(Flag(true)), None))
  }

  /** A direct request is refused exactly for an unknown word, as part of a composition, for a reason
      that is not registered, or for want of gate evidence; its route has one inline node. */
  lemma DirectCompiles(reg: Registry, recipe: Recipe, req: Request)
    requires Groups(recipe) && DirectDue(recipe, req)
    ensures Compile(reg, recipe, req).Ok? <==>
            && KnownRequest(recipe, req) && !req.composed && GateShown(req.tracking, req.gate)
            && (if req.inlineReason == None then "atomic-direct" else req.inlineReason.value) in reg.inlineReasons
    ensures Compile(reg, recipe, req).Ok? ==>
              var r := Compile(reg, recipe, req).value;
              && TakenOver(recipe, req, r) && r.tier == Direct && r.ownerProfile == None && r.ownerDepth == 0 && r.maxDepth == 0
              && r.launch == Interactive && r.evidence == None && r.candidates == None && !r.serial
              && r.inlineReason == Some(if req.inlineReason == None then "atomic-direct" else req.inlineReason.value)
              && |r.nodes| == 1 && IsInline(recipe, r.nodes[0].node) && r.nodes[0].hops == None && r.nodes[0].affinity == None
              && r.groups == [] && r.bindings == [] && r.contract == Contract({"inline"}, map[])
  {
    TierIs(recipe, req);
    CompileIs(reg, recipe, req, Direct);
    var reason := if req.inlineReason.None? then "atomic-direct" else req.inlineReason.value;
    var rn := RouteNode(InlineNode(recipe), None, None);
    OneContract(rn.node);
    OneSummary(rn.node);
    assert Bare([rn]) == [rn.node];
    DirectFinishes(reg, recipe, req, reason, rn);
    if Compile(reg, recipe, req).Ok? {
      FinishTakesOver(reg, recipe, req, Direct, [rn], Interactive, Some(reason), None, None, Compile(reg, recipe, req).value);
    }
  }

  lemma DirectFinishes(reg: Registry, recipe: Recipe, req: Request, reason: string, rn: RouteNode)
    requires reason == (if req.inlineReason.None? then "atomic-direct" else req.inlineReason.value)
    requires rn == RouteNode(InlineNode(recipe), None, None) && ContractOf(Bare([rn])).Some?
    ensures CompileDirect(reg, recipe, req).Ok? <==> reason in reg.inlineReasons && GateShown(req.tracking, req.gate)
    ensures CompileDirect(reg, recipe, req).Ok? ==>
              Finish(reg, recipe, req, Direct, [rn], Interactive, Some(reason), None, None) == CompileDirect(reg, recipe, req)
  {
  }

  /** A quick request needs good evidence for one harness each and gives no inline reason; its route has
      one registered node, and its candidates in order. */
  lemma QuickCompiles(reg: Registry, recipe: Recipe, req: Request)
    requires Groups(recipe) && QuickDue(recipe, req)
    ensures Compile(reg, recipe, req).Ok? <==>
            && KnownRequest(recipe, req) && !req.composed && GateShown(req.tracking, req.gate)
            && req.launch != Some(Interactive) && req.inlineReason == None && CandidatesGood(req.headless)
            && recipe.quickKind != ResourceRunner
    ensures Compile(reg, recipe, req).Ok? ==>
              var r := Compile(reg, recipe, req).value;
              && TakenOver(recipe, req, r) && r.tier == Quick && r.ownerProfile == OwnerOf(reg, Quick) && r.ownerDepth == 1 && r.maxDepth == 1
              && r.launch == Headless && r.evidence == None && r.serial && r.inlineReason == None
              && r.candidates.Some? && IsSorted(r.candidates.value, req.headless)
              && |r.nodes| == 1 && IsOneShot(reg, recipe, r.nodes[0].node) && r.nodes[0].hops == None && r.nodes[0].affinity == None
              && r.groups == [] && r.bindings == [] && r.contract == Contract({"one-shot"}, map[])
  {
    TierIs(recipe, req);
    CompileIs(reg, recipe, req, Quick);
    HeadlessExactly(req.headless);
    var rn := RouteNode(QuickNode(reg, recipe), None, None);
    OneContract(rn.node);
    OneSummary(rn.node);
    assert Bare([rn]) == [rn.node];
    QuickFinishes(reg, recipe, req, rn);
    if Compile(reg, recipe, req).Ok? {
      var rows := E.NormalizeHeadless(req.headless).value;
      FinishTakesOver(reg, recipe, req, Quick, [rn], Headless, None, None, Some(rows), Compile(reg, recipe, req).value);
    }
  }

  lemma QuickFinishes(reg: Registry, recipe: Recipe, req: Request, rn: RouteNode)
    requires rn == RouteNode(QuickNode(reg, recipe), None, None)
    ensures CompileQuick(reg, recipe, req).Ok? <==>
            && GateShown(req.tracking, req.gate) && req.launch != Some(Interactive) && req.inlineReason == None
            && E.NormalizeHeadless(req.headless).Ok? && ContractOf(Bare([rn])).Some?
    ensures CompileQuick(reg, recipe, req).Ok? ==>
              E.NormalizeHeadless(req.headless).Ok? &&
              Finish(reg, recipe, req, Quick, [rn], Headless, None, None, Some(E.NormalizeHeadless(req.headless).value)) == CompileQuick(reg, recipe, req)
  {
  }

  /* ---- Staged routes ---- */

  predicate HasDepthTwo(nodes: seq<Node>) {
    exists i :: 0 <= i < |nodes| && nodes[i].depth == Some(2)
  }

  /** Every node can be sealed, and the workflow ends somewhere. */
  predicate CanSeal(nodes: seq<Node>) {
    && (forall i :: 0 <= i < |nodes| ==> NodeSealed(nodes, nodes[i]))
    && exists i :: 0 <= i < |nodes| && !Wanted(nodes, nodes[i].id)
  }

  lemma CanSealIs(nodes: seq<Node>)
    ensures ContractOf(nodes).Some? <==> CanSeal(nodes)
  {
    if ContractOf(nodes).Some? {
      var c := ContractOf(nodes).value;
      ContractIsSealed(nodes, c);
      var t :| t in c.terminals;
      assert HasId(nodes, t) && !Wanted(nodes, t);
      var i :| 0 <= i < |nodes| && nodes[i].id == t;
    }
    if CanSeal(nodes) {
      var j :| 0 <= j < |nodes| && !Wanted(nodes, nodes[j].id);
      WantedIs(nodes, nodes[j].id);
      var sinks := set i | 0 <= i < |nodes| && !HasDependent(nodes, nodes[i].id) :: nodes[i].id;
      assert nodes[j].id in sinks;
      forall k | 0 <= k < |nodes| ensures Seals(nodes[k], !HasDependent(nodes, nodes[k].id)) {
        WantedIs(nodes, nodes[k].id);
        assert NodeSealed(nodes, nodes[k]);
      }
    }
  }

  /** The node as expanded; at depth 2 with the chain and the affinity the table has for it or its anchor. */
  ghost predicate SealedNode(rn: RouteNode, n: Node, kept: E.Checked, table: Option<map<Id, string>>) {
    && rn.node == n
    && if n.depth != Some(2) then rn.hops == None && rn.affinity == n.keys.affinity
       else
         var name := if n.leg == None then n.id else n.leg.value.anchor;
         && rn.hops.Some? && IsChain(rn.hops.value, kept)
         && rn.affinity == Some(if table.Some? && name in table.value then table.value[name] else "unspecified")
  }

  ghost predicate SealedNodesOf(nodes: seq<RouteNode>, expanded: seq<Node>, kept: E.Checked, table: Option<map<Id, string>>) {
    |nodes| == |expanded| && forall i :: 0 <= i < |nodes| ==> SealedNode(nodes[i], expanded[i], kept, table)
  }

  lemma SealAllIs(expanded: seq<Node>, chain: seq<E.Hop>, kept: E.Checked, table: Option<map<Id, string>>)
    requires IsChain(chain, kept)
    ensures SealedNodesOf(SealAll(expanded, chain, table), expanded, kept, table) && Bare(SealAll(expanded, chain, table)) == expanded
  {
    forall i | 0 <= i < |expanded| ensures SealedNode(SealAll(expanded, chain, table)[i], expanded[i], kept, table) {}
  }

  /** The chain of the evidence as handed in, if there is one. */
  lemma ChainOfDispatch(e: E.Checked)
    ensures E.Normalize(e, 1).Ok? && E.FallbackChain(E.Normalize(e, 1).value, 1).Ok? <==> EvidenceGood(e, 1) && SomeLaunchable(e.tuples)
    ensures E.Normalize(e, 1).Ok? ==> SealedFrom(E.Normalize(e, 1).value, e)
    ensures E.Normalize(e, 1).Ok? && E.FallbackChain(E.Normalize(e, 1).value, 1).Ok? ==>
              IsChain(E.FallbackChain(E.Normalize(e, 1).value, 1).value, E.Normalize(e, 1).value)
  {
    SealedExactly(e, 1);
    if E.Normalize(e, 1).Ok? {
      var kept := E.Normalize(e, 1).value;
      E.NormalizeIdempotent(e, 1);
      ChainExactly(kept, 1);
      KeptSupported(e, kept, 1);
      SealedExactly(kept, 1);
    }
  }

  predicate StagedMeets(recipe: Recipe, req: Request, nodes: seq<Node>) {
    && req.launch != Some(Interactive) && req.inlineReason == None && GateShown(req.tracking, req.gate)
    && recipe.ownerDepth == 1 && HasDepthTwo(nodes)
    && EvidenceGood(req.dispatch, 1) && SomeLaunchable(req.dispatch.tuples) && CanSeal(nodes)
  }

  lemma StagedFinishes(reg: Registry, recipe: Recipe, req: Request, tier: Tier)
    requires ValidGroups(recipe.groups, tier)
    ensures var nodes := Expand(recipe.nodes, recipe.groups, tier);
            CompileStaged(reg, recipe, req, tier).Ok? <==>
            && req.launch != Some(Interactive) && req.inlineReason == None && GateShown(req.tracking, req.gate)
            && ParentDepth(nodes, recipe.ownerDepth) == Ok(1) && E.Normalize(req.dispatch, 1).Ok?
            && var kept := E.Normalize(req.dispatch, 1).value;
               E.FallbackChain(kept, 1).Ok? && ContractOf(Bare(SealAll(nodes, E.FallbackChain(kept, 1).value, req.affinity))).Some?
    ensures var nodes := Expand(recipe.nodes, recipe.groups, tier);
            CompileStaged(reg, recipe, req, tier).Ok? ==>
              && E.Normalize(req.dispatch, 1).Ok?
              && var kept := E.Normalize(req.dispatch, 1).value;
                 && E.FallbackChain(kept, 1).Ok?
                 && Finish(reg, recipe, req, tier, SealAll(nodes, E.FallbackChain(kept, 1).value, req.affinity), Headless, None, Some(kept), None)
                    == CompileStaged(reg, recipe, req, tier)
  {
  }

  lemma StagedOk(reg: Registry, recipe: Recipe, req: Request, tier: Tier, nodes: seq<Node>)
    requires ValidGroups(recipe.groups, tier) && nodes == Expand(recipe.nodes, recipe.groups, tier)
    ensures CompileStaged(reg, recipe, req, tier).Ok? <==> StagedMeets(recipe, req, nodes)
  {
    StagedFinishes(reg, recipe, req, tier);
    ChainOfDispatch(req.dispatch);
    CanSealIs(nodes);
    assert ParentDepth(nodes, recipe.ownerDepth) == Ok(1) <==> recipe.ownerDepth == 1 && HasDepthTwo(nodes);
    if EvidenceGood(req.dispatch, 1) && SomeLaunchable(req.dispatch.tuples) {
      var kept := E.Normalize(req.dispatch, 1).value;
      SealAllIs(nodes, E.FallbackChain(kept, 1).value, kept, req.affinity);
    }
  }

  ghost predicate StagedSealed(reg: Registry, recipe: Recipe, req: Request, tier: Tier, nodes: seq<Node>, r: Route) {
    && TakenOver(recipe, req, r) && r.tier == tier && r.ownerProfile == OwnerOf(reg, tier)
    && r.ownerDepth == recipe.ownerDepth && r.maxDepth == recipe.maxDepth
    && r.launch == Headless && r.inlineReason == None && r.candidates == None && !r.serial && r.bindings == recipe.bindings
    && ContractSealed(nodes, r.contract)
    && r.evidence.Some? && SealedFrom(r.evidence.value, req.dispatch) && SealedNodesOf(r.nodes, nodes, r.evidence.value, req.affinity)
  }

  /** Any other request needs good evidence with a supported row, a recipe with depth-2 nodes under an
      owner of depth 1, and an expansion that can be sealed; its route seals that expansion node by node. */
  lemma StagedCompiles(reg: Registry, recipe: Recipe, req: Request)
    requires Groups(recipe) && !DirectDue(recipe, req) && !QuickDue(recipe, req)
    ensures ValidGroups(recipe.groups, StagedDue(req))
    ensures Compile(reg, recipe, req).Ok? <==>
            KnownRequest(recipe, req) && StagedMeets(recipe, req, Expand(recipe.nodes, recipe.groups, StagedDue(req)))
    ensures Compile(reg, recipe, req).Ok? ==>
              StagedSealed(reg, recipe, req, StagedDue(req), Expand(recipe.nodes, recipe.groups, StagedDue(req)), Compile(reg, recipe, req).value)
  {
    var tier := StagedDue(req);
    TierIs(recipe, req);
    assert !Small(tier);
    var nodes := Expand(recipe.nodes, recipe.groups, tier);
    CompileIs(reg, recipe, req, tier);
    StagedOk(reg, recipe, req, tier, nodes);
    if Compile(reg, recipe, req).Ok? { StagedIsSealed(reg, recipe, req, tier, nodes, Compile(reg, recipe, req).value); }
  }

  lemma StagedIsSealed(reg: Registry, recipe: Recipe, req: Request, tier: Tier, nodes: seq<Node>, r: Route)
    requires ValidGroups(recipe.groups, tier) && !Small(tier) && nodes == Expand(recipe.nodes, recipe.groups, tier)
    requires CompileStaged(reg, recipe, req, tier) == Ok(r)
    ensures StagedSealed(reg, recipe, req, tier, nodes, r)
  {
    StagedFinishes(reg, recipe, req, tier);
    ChainOfDispatch(req.dispatch);
    var kept := E.Normalize(req.dispatch, 1).value;
    var chain := E.FallbackChain(kept, 1).value;
    SealAllIs(nodes, chain, kept, req.affinity);
    FinishTakesOver(reg, recipe, req, tier, SealAll(nodes, chain, req.affinity), Headless, None, Some(kept), None, r);
    ContractIsSealed(nodes, r.contract);
  }
}
