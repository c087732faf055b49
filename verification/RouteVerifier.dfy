/** Verification of a sealed route: every derived part is derived again and compared. */
module RouteVerifier {
  import opened Prelude
  import opened RouteNodes
  import opened Scopes
  import opened Expansion
  import opened WorkflowContract
  import opened RouteCompiler
  import E = Evidence

  datatype VerifyError =
    | ComposedTooSmall | NodesDiffer | ExtensionsDiffer | ExtensionUnrealized | BindingsDiffer | ContractDiffers
    | UndeclaredGate | DepthRange | OwnerProfile | NodeBroken(id: Id) | GroupBroken(group: string) | SummaryDiffers
    | DepthDiffers | DirectShape | QuickShape | GateBroken | TrackingEscalation | SpecTouchDiffers | NotHeadless
    | EvidenceBroken(reason: E.EvidenceError) | FallbackDiffers(id: Id)

  /* ---- Single nodes ---- */

  predicate IsAgent(n: Node) {
    n.kind != ResourceRunner
  }

  predicate SemanticOwner(n: Node) {
    n.kind == CapabilityOwner && n.unit == "_kernel/owner"
  }

  const SURFACES: set<string> :=
    {"registered-headless", "codex-native-subagent", "claude-subagent", "claude-agent-team-teammate", "inline"}

  /** The keys a node brings along: no retired fallback, known vocabulary, and both names of its group agree. */
  predicate KeysFine(n: Node) {
    && !n.keys.dispatchFallback
    && (n.keys.surface.Some? ==> n.keys.surface.value in SURFACES)
    && n.keys.registered != Some(NotBoolean)
    && (n.leg.Some? ==> n.leg.value.alias == Some(n.leg.value.group))
  }

  predicate NodeFine(reg: Registry, affinities: set<string>, tier: Tier, rn: RouteNode) {
    var n := rn.node;
    if !IsAgent(n) then n.depth.None? && rn.hops.None?
    else
      && (n.depth in {Some(1), Some(2)} ==> n.profile.Some? && n.profile.value in reg.registered)
      && (!Small(tier) && SemanticOwner(n) ==> n.depth == Some(1) && n.profile == ProfileFor(reg, tier))
      && n.depth in {Some(0), Some(1), Some(2)}
      && (rn.affinity.Some? ==> rn.affinity.value in affinities)
      && KeysFine(n)
  }

  /* ---- Groups ---- */

  function Agents(nodes: seq<Node>): seq<Node> {
    if nodes == [] then [] else (if IsAgent(nodes[0]) then [nodes[0]] else []) + Agents(nodes[1..])
  }

  function IndexOf(n: Node): int {
    if n.leg.Some? then n.leg.value.index else -1
  }

  function Insert(n: Node, sorted: seq<Node>): (r: seq<Node>)
    ensures |r| == |sorted| + 1
  {
    if sorted == [] || IndexOf(n) <= IndexOf(sorted[0]) then [n] + sorted
    else [sorted[0]] + Insert(n, sorted[1..])
  }

  /** Stable sort by leg index. */
  function SortByIndex(members: seq<Node>): (r: seq<Node>)
    ensures |r| == |members|
  {
    if members == [] then [] else Insert(members[0], SortByIndex(members[1..]))
  }

  predicate PairFine(a: string, b: string) {
    Overlap(a, b) == Ok(false)
  }

  predicate ScopesApart(a: seq<string>, b: seq<string>) {
    forall i, j :: 0 <= i < |a| && 0 <= j < |b| ==> PairFine(a[i], b[j])
  }

  /** The sorted members carry the indexes 0, 1, ... of one group and write to disjoint scopes. */
  predicate GroupFine(members: seq<Node>) {
    && members != [] && members[0].leg.Some?
    && (forall i :: 0 <= i < |members| ==>
          && members[i].leg.Some? && members[i].leg.value.index == i && members[i].leg.value.count == |members|
          && members[i].leg.value.groupKind == members[0].leg.value.groupKind
          && members[i].leg.value.joinPolicy == members[0].leg.value.joinPolicy
          && members[i].leg.value.axes == members[0].leg.value.axes)
    && (forall i, j :: 0 <= i < j < |members| ==> ScopesApart(members[i].scopes, members[j].scopes))
  }

  function GroupMembers(nodes: seq<Node>, group: string): seq<Node> {
    SortByIndex(MembersOf(Agents(nodes), group))
  }

  predicate GroupsFine(nodes: seq<Node>) {
    forall k :: 0 <= k < |GroupIds(Agents(nodes))| ==> GroupFine(GroupMembers(nodes, GroupIds(Agents(nodes))[k]))
  }

  function ExpectedRow(nodes: seq<Node>, group: string): GroupRow
    requires GroupFine(GroupMembers(nodes, group))
  {
    RowFrom(GroupMembers(nodes, group), group)
  }

  function ExpectedRows(nodes: seq<Node>): seq<GroupRow>
    requires GroupsFine(nodes)
  {
    var ids := GroupIds(Agents(nodes));
    seq(|ids|, k requires 0 <= k < |ids| => ExpectedRow(nodes, ids[k]))
  }

  /* ---- Depth ---- */

  /** The largest of a depth and the depths of the agent nodes. */
  function Deepest(nodes: seq<Node>, owner: nat): (m: nat)
    ensures m >= owner && forall i :: 0 <= i < |nodes| && IsAgent(nodes[i]) && nodes[i].depth.Some? ==> nodes[i].depth.value <= m
    ensures m == owner || exists i :: 0 <= i < |nodes| && IsAgent(nodes[i]) && nodes[i].depth == Some(m)
  {
    if nodes == [] then owner
    else
      var rest := Deepest(nodes[1..], owner);
      assert forall i :: 0 < i < |nodes| ==> nodes[i] == nodes[1..][i - 1];
      if IsAgent(nodes[0]) && nodes[0].depth.Some? && nodes[0].depth.value > rest then nodes[0].depth.value else rest
  }

  /* ---- Whole routes ---- */

  predicate Anchored(extensions: seq<Extension>, nodes: seq<Node>) {
    forall i :: 0 <= i < |extensions| ==> extensions[i].after <= Ids(nodes)
  }

  predicate GatesDeclared(bindings: seq<Binding>, gates: set<string>) {
    forall i :: 0 <= i < |bindings| ==> bindings[i].gate in gates
  }

  predicate DirectFine(r: Route) {
    && r.ownerDepth == 0 && r.maxDepth == 0 && r.launch == Interactive && r.candidates.None? && !r.serial && |r.nodes| == 1
    && var rn := r.nodes[0];
       rn.node.id == "inline" && rn.node.depth == Some(0) && rn.node.keys.surface == Some("inline")
       && rn.node.keys.registered == Some(Flag(false)) && rn.hops.None?
  }

  predicate QuickFine(reg: Registry, r: Route) {
    && r.ownerDepth == 1 && r.maxDepth == 1 && r.launch == Headless && r.inlineReason.None? && r.serial && |r.nodes| == 1
    && r.candidates.Some? && E.NormalizeHeadless(r.candidates.value) == Ok(r.candidates.value)
    && var rn := r.nodes[0];
       && rn.node.id == "one-shot" && rn.node.depth == Some(1) && rn.node.unit == "_kernel/owner"
       && rn.node.profile == ProfileFor(reg, Quick)
       && rn.node.keys.surface == Some("registered-headless") && rn.node.keys.registered == Some(Flag(true)) && rn.hops.None?
  }

  function StagedError(r: Route): Option<VerifyError> {
    if r.launch != Headless then Some(NotHeadless)
    else if r.evidence.None? then Some(EvidenceBroken(E.NoTuples))
    else
      match ParentDepth(Bare(r.nodes), r.ownerDepth)
      case Err(e) => Some(EvidenceBroken(e))
      case Ok(depth) =>
        match E.Normalize(r.evidence.value, depth)
        case Err(e) => Some(EvidenceBroken(e))
        case Ok(checked) =>
          match E.FallbackChain(checked, depth)
          case Err(e) => Some(EvidenceBroken(e))
          case Ok(chain) => HopsError(r.nodes, chain)
  }

  predicate HopsFine(rn: RouteNode, chain: seq<E.Hop>) {
    rn.node.depth == Some(2) ==> rn.hops.Some? && E.ChainFine(rn.hops.value) && rn.hops.value == chain
  }

  function HopsError(nodes: seq<RouteNode>, chain: seq<E.Hop>): Option<VerifyError> {
    if nodes == [] then None
    else if !HopsFine(nodes[0], chain) then Some(FallbackDiffers(nodes[0].node.id))
    else HopsError(nodes[1..], chain)
  }

  function FirstBroken(reg: Registry, affinities: set<string>, tier: Tier, nodes: seq<RouteNode>): Option<VerifyError> {
    if nodes == [] then None
    else if !NodeFine(reg, affinities, tier, nodes[0]) then Some(NodeBroken(nodes[0].node.id))
    else FirstBroken(reg, affinities, tier, nodes[1..])
  }

  function BrokenGroup(nodes: seq<Node>, ids: seq<string>): Option<VerifyError> {
    if ids == [] then None
    else if !GroupFine(GroupMembers(nodes, ids[0])) then Some(GroupBroken(ids[0]))
    else BrokenGroup(nodes, ids[1..])
  }

  /** The recipe a route is held against: its own for a composed route, the registry's otherwise. */
  function HeldAgainst(recipe: Recipe, r: Route): Recipe {
    if r.composed.Some? then r.composed.value else recipe
  }

  function ShapeError(reg: Registry, r: Route): Option<VerifyError> {
    if r.tier == Direct && !DirectFine(r) then Some(DirectShape)
    else if r.tier == Quick && !QuickFine(reg, r) then Some(QuickShape)
    else if !GateFine(r.tracking, r.gate) then Some(GateBroken)
    else if r.escalation * TRACKING != {} then Some(TrackingEscalation)
    else if r.specTouch != SpecTouch(r.nodes) then Some(SpecTouchDiffers)
    else if Small(r.tier) then None
    else StagedError(r)
  }

  function GraphError(reg: Registry, affinities: set<string>, r: Route): Option<VerifyError> {
    var nodes := Bare(r.nodes);
    var broken := FirstBroken(reg, affinities, r.tier, r.nodes);
    var group := BrokenGroup(nodes, GroupIds(Agents(nodes)));
    if broken.Some? then broken
    else if group.Some? then group
    else if !GroupsFine(nodes) || r.groups != ExpectedRows(nodes) then Some(SummaryDiffers)
    else if r.maxDepth != Deepest(nodes, r.ownerDepth) then Some(DepthDiffers)
    else ShapeError(reg, r)
  }

  /** What two nodes are compared on: all but what sealing stamps. */
  function Identity(n: Node): Node {
    n.(keys := n.keys.(affinity := None))
  }

  function Identities(nodes: seq<Node>): seq<Node> {
    seq(|nodes|, i requires 0 <= i < |nodes| => Identity(nodes[i]))
  }

  function Verify(reg: Registry, affinities: set<string>, recipe: Recipe, r: Route): Option<VerifyError>
    requires !Small(r.tier) ==> ValidGroups(HeldAgainst(recipe, r).groups, r.tier)
  {
    var held := HeldAgainst(recipe, r);
    var nodes := Bare(r.nodes);
    if r.composed.Some? && Small(r.tier) then Some(VerifyError.ComposedTooSmall)
    else if r.composed.Some? && Identities(nodes) != Identities(Expand(held.nodes, held.groups, r.tier)) then Some(NodesDiffer)
    else if r.extensions != RealExtensions(held, r.tier) then Some(ExtensionsDiffer)
    else if !Anchored(r.extensions, nodes) then Some(ExtensionUnrealized)
    else if r.bindings != Bindings(held, r.tier) then Some(BindingsDiffer)
    else if ContractOf(nodes) != Some(r.contract) then Some(ContractDiffers)
    else if !GatesDeclared(r.bindings, r.humanGates) then Some(UndeclaredGate)
    else if r.ownerDepth > 1 || r.maxDepth > 2 then Some(DepthRange)
    else if r.ownerProfile != ProfileFor(reg, r.tier) then Some(OwnerProfile)
    else GraphError(reg, affinities, r)
  }
}
