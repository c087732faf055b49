/** Compilation of a recipe and a request into a route. */
module RouteCompiler {
  import opened Prelude
  import opened Graph
  import opened RouteNodes
  import opened Scopes
  import opened Expansion
  import opened ExpansionForm
  import opened ExpansionTheorems
  import opened WorkflowContract
  import E = Evidence

  datatype Launch = Interactive | Headless
  datatype Tracking = Tracked | Untracked

  datatype GateRow = GateRow(satisfied: bool, source: string)
  datatype GateEvidence = GateEvidence(specRead: GateRow, drift: string, mode: Tracking, artifactGuard: GateRow)

  datatype Extension = Extension(id: string, after: set<Id>)

  datatype Registry = Registry(ownerProfile: map<Tier, string>, registered: set<string>, inlineReasons: set<string>)

  datatype Recipe = Recipe(
    predicates: set<string>,
    signals: set<string>,
    quickKind: Kind,
    quickScopes: seq<string>,
    nodes: seq<Node>,
    groups: seq<Group>,
    ownerDepth: nat,
    maxDepth: nat,
    humanGates: set<string>,
    bindings: seq<Binding>,
    extensions: seq<Extension>)

  datatype Request = Request(
    predicates: set<string>,
    signals: set<string>,
    requested: Option<Tier>,
    launch: Option<Launch>,
    inlineReason: Option<string>,
    tracking: Tracking,
    gate: GateEvidence,
    dispatch: E.Checked,
    headless: seq<E.HeadlessRow>,
    affinity: Option<map<Id, string>>,
    composed: bool)

  /** A node as sealed in a route. */
  datatype RouteNode = RouteNode(node: Node, hops: Option<seq<E.Hop>>, affinity: Option<string>)

  datatype GroupRow = GroupRow(id: string, kind: string, joinPolicy: string, axes: seq<string>, width: int, members: seq<Id>)

  datatype Route = Route(
    tier: Tier,
    ownerProfile: Option<string>,
    ownerDepth: nat,
    maxDepth: nat,
    launch: Launch,
    inlineReason: Option<string>,
    tracking: Tracking,
    gate: GateEvidence,
    specTouch: bool,
    escalation: set<string>,
    nodes: seq<RouteNode>,
    groups: seq<GroupRow>,
    extensions: seq<Extension>,
    humanGates: set<string>,
    bindings: seq<Binding>,
    contract: Contract,
    evidence: Option<E.Checked>,
    candidates: Option<seq<E.HeadlessRow>>,
    serial: bool,
    composed: Option<Recipe>)

  datatype CompileError =
    | UnknownPredicates | TrackingSignal | UnknownSignals | ComposedTooSmall | InvalidTransport | InlineReason
    | GateMissing | BadEvidence(reason: E.EvidenceError) | NoContract

  const TRACKING := {"tracked", "untracked"}

  /* ---- Shared derivations ---- */

  function Bare(nodes: seq<RouteNode>): seq<Node> {
    seq(|nodes|, i requires 0 <= i < |nodes| => nodes[i].node)
  }

  /** The contract of a graph whose nodes all seal; none otherwise. */
  function ContractOf(nodes: seq<Node>): Option<Contract> {
    var sinks := set i | 0 <= i < |nodes| && !HasDependent(nodes, nodes[i].id) :: nodes[i].id;
    if sinks == {} || !AllSeal(nodes) then None
    else Some(Contract(sinks, map id | id in Ids(nodes) && HasDependent(nodes, id) && FindLast(nodes, id).continuation.Some? ::
                                KindOf(FindLast(nodes, id).continuation.value)))
  }

  /** The last node with the id. */
  function FindLast(nodes: seq<Node>, id: Id): (n: Node)
    requires HasId(nodes, id)
    ensures exists i :: 0 <= i < |nodes| && n == nodes[i] && n.id == id && LastOfName(nodes, i)
    decreases |nodes|
  {
    var k := |nodes| - 1;
    if nodes[k].id == id then
      assert LastOfName(nodes, k);
      nodes[k]
    else
      assert HasId(nodes[..k], id) by {
        var i :| 0 <= i < |nodes| && nodes[i].id == id;
        assert nodes[..k][i].id == id;
      }
      var n := FindLast(nodes[..k], id);
      assert exists i :: 0 <= i < |nodes| && n == nodes[i] && n.id == id && LastOfName(nodes, i) by {
        var i :| 0 <= i < k && n == nodes[..k][i] && n.id == id && LastOfName(nodes[..k], i);
        assert forall j :: i < j < k ==> nodes[..k][j] == nodes[j];
        assert n == nodes[i] && LastOfName(nodes, i);
      }
      n
  }

  lemma LastIsOne(nodes: seq<Node>, i: nat, k: nat)
    requires i < |nodes| && k < |nodes| && nodes[i].id == nodes[k].id && LastOfName(nodes, i) && LastOfName(nodes, k)
    ensures i == k
  {
  }

  lemma LastIndex(nodes: seq<Node>, id: Id) returns (i: nat)
    requires HasId(nodes, id)
    ensures i < |nodes| && nodes[i].id == id && LastOfName(nodes, i)
  {
    i :| 0 <= i < |nodes| && FindLast(nodes, id) == nodes[i] && nodes[i].id == id && LastOfName(nodes, i);
  }

  predicate SameAt(c: Contract, d: Contract, id: Id) {
    && (id in c.terminals <==> id in d.terminals)
    && (id in c.continuations <==> id in d.continuations)
    && (id in c.continuations && id in d.continuations ==> c.continuations[id] == d.continuations[id])
  }

  lemma ContractsEqual(c: Contract, d: Contract)
    requires forall id :: SameAt(c, d, id)
    ensures c == d
  {
    assert forall id :: id in c.terminals <==> id in d.terminals by {
      forall id ensures id in c.terminals <==> id in d.terminals { assert SameAt(c, d, id); }
    }
    assert c.continuations == d.continuations by {
      forall id ensures id in c.continuations <==> id in d.continuations { assert SameAt(c, d, id); }
      forall id | id in c.continuations ensures c.continuations[id] == d.continuations[id] { assert SameAt(c, d, id); }
    }
  }

  lemma ContractExists(nodes: seq<Node>, c: Contract)
    requires AllSeal(nodes) && ContractFits(nodes, c)
    ensures ContractOf(nodes).Some?
  {
    var t :| t in c.terminals;
    assert IsSink(nodes, t);
    var k :| 0 <= k < |nodes| && nodes[k].id == t;
  }

  /** What the contract of a sealed graph says of one node. */
  lemma ContractAt(nodes: seq<Node>, i: nat)
    requires AllSeal(nodes) && ContractOf(nodes).Some? && i < |nodes| && LastOfName(nodes, i)
    ensures var d, n := ContractOf(nodes).value, nodes[i];
            && (n.id in d.terminals <==> !HasDependent(nodes, n.id))
            && (n.id in d.continuations <==> HasDependent(nodes, n.id))
            && (n.id in d.continuations ==> NextKind(n) == Some(d.continuations[n.id]))
  {
    var k :| 0 <= k < |nodes| && FindLast(nodes, nodes[i].id) == nodes[k] && nodes[k].id == nodes[i].id && LastOfName(nodes, k);
    LastIsOne(nodes, i, k);
    assert Seals(nodes[i], !HasDependent(nodes, nodes[i].id));
  }

  lemma FitAt(nodes: seq<Node>, c: Contract, i: nat)
    requires AllSeal(nodes) && ContractFits(nodes, c) && i < |nodes| && LastOfName(nodes, i)
    ensures ContractOf(nodes).Some? && SameAt(c, ContractOf(nodes).value, nodes[i].id)
  {
    ContractExists(nodes, c);
    ContractAt(nodes, i);
  }

  lemma FitEverywhere(nodes: seq<Node>, c: Contract, id: Id)
    requires AllSeal(nodes) && ContractFits(nodes, c)
    ensures ContractOf(nodes).Some? && SameAt(c, ContractOf(nodes).value, id)
  {
    if HasId(nodes, id) {
      var i := LastIndex(nodes, id);
      FitAt(nodes, c, i);
    } else {
      var t :| t in c.terminals;
      assert IsSink(nodes, t);
      var k := LastIndex(nodes, t);
      FitAt(nodes, c, k);
    }
  }

  /** The loop that seals a contract computes exactly this. */
  lemma ContractOfFits(nodes: seq<Node>, c: Contract)
    requires AllSeal(nodes) && ContractFits(nodes, c)
    ensures ContractOf(nodes) == Some(c)
  {
    FitEverywhere(nodes, c, "");
    var d := ContractOf(nodes).value;
    forall id ensures SameAt(c, d, id) { FitEverywhere(nodes, c, id); }
    ContractsEqual(c, d);
  }

  predicate TouchesSpec(scope: string) {
    Stem(scope) == "spec" || Under(Stem(scope), "spec")
  }

  predicate SpecTouch(nodes: seq<RouteNode>) {
    exists i :: 0 <= i < |nodes| && exists j :: 0 <= j < |nodes[i].node.scopes| && TouchesSpec(nodes[i].node.scopes[j])
  }

  predicate GateFine(tracking: Tracking, g: GateEvidence) {
    && g.mode == tracking && g.drift != "" && g.specRead.source != "" && g.artifactGuard.source != ""
    && (tracking == Tracked ==> g.specRead.satisfied && g.artifactGuard.satisfied)
  }

  function EndOnly(extensions: seq<Extension>, terminal: Id): seq<Extension> {
    seq(|extensions|, i requires 0 <= i < |extensions| => extensions[i].(after := {terminal}))
  }

  function RealExtensions(recipe: Recipe, tier: Tier): seq<Extension> {
    if tier == Direct then EndOnly(recipe.extensions, "inline")
    else if tier == Quick then EndOnly(recipe.extensions, "one-shot")
    else recipe.extensions
  }

  predicate Small(tier: Tier) {
    tier == Direct || tier == Quick
  }

  function Bindings(recipe: Recipe, tier: Tier): seq<Binding> {
    if Small(tier) then [] else recipe.bindings
  }

  /** Whose runtime the evidence must describe: the parent of the depth-2 nodes that use it. */
  function ParentDepth(nodes: seq<Node>, ownerDepth: nat): Result<nat, E.EvidenceError> {
    if !exists i :: 0 <= i < |nodes| && nodes[i].depth == Some(2) then Err(E.NoConsumer)
    else if ownerDepth != 1 then Err(E.DepthMismatch)
    else Ok(1)
  }

  /* ---- Group summary ---- */

  predicate InGroup(n: Node, group: string) {
    n.leg.Some? && n.leg.value.group == group
  }

  function MembersOf(nodes: seq<Node>, group: string): (r: seq<Node>)
    ensures forall i :: 0 <= i < |r| ==> InGroup(r[i], group)
  {
    if nodes == [] then []
    else (if InGroup(nodes[0], group) then [nodes[0]] else []) + MembersOf(nodes[1..], group)
  }

  /** Group ids in the order of their first members. */
  function GroupIds(nodes: seq<Node>): seq<string>
    ensures forall g :: g in GroupIds(nodes) ==> MembersOf(nodes, g) != []
    decreases |nodes|
  {
    if nodes == [] then []
    else
      var last := nodes[|nodes| - 1];
      var before := GroupIds(nodes[..|nodes| - 1]);
      MembersGrow(nodes);
      if last.leg.Some? && last.leg.value.group !in before then before + [last.leg.value.group] else before
  }

  lemma MembersJoin(a: seq<Node>, b: seq<Node>, g: string)
    ensures MembersOf(a + b, g) == MembersOf(a, g) + MembersOf(b, g)
  {
    if a == [] {
      assert [] + b == b;
    } else {
      assert (a + b)[0] == a[0] && (a + b)[1..] == a[1..] + b;
      MembersJoin(a[1..], b, g);
    }
  }

  lemma MembersGrow(nodes: seq<Node>)
    requires nodes != []
    ensures var last := nodes[|nodes| - 1];
            forall g :: MembersOf(nodes, g) == MembersOf(nodes[..|nodes| - 1], g) + if InGroup(last, g) then [last] else []
  {
    var last := nodes[|nodes| - 1];
    assert nodes == nodes[..|nodes| - 1] + [last] && [last][1..] == [];
    forall g ensures MembersOf(nodes, g) == MembersOf(nodes[..|nodes| - 1], g) + if InGroup(last, g) then [last] else [] {
      MembersJoin(nodes[..|nodes| - 1], [last], g);
    }
  }

  /** One summary row, described by the first member. */
  function RowFrom(members: seq<Node>, group: string): GroupRow
    requires members != [] && members[0].leg.Some?
  {
    var leg := members[0].leg.value;
    GroupRow(group, leg.groupKind, leg.joinPolicy, leg.axes, leg.count, IdsOf(members))
  }

  function Summary(nodes: seq<Node>): seq<GroupRow> {
    var ids := GroupIds(nodes);
    seq(|ids|, k requires 0 <= k < |ids| => RowFrom(MembersOf(nodes, ids[k]), ids[k]))
  }

  /** The loop over the nodes: a row is opened by its first member and grows in node order. */
  method RealizedGroups(nodes: seq<Node>) returns (rows: seq<GroupRow>)
    ensures rows == Summary(nodes)
  {
    rows := [];
    var i := 0;
    while i < |nodes|
      invariant i <= |nodes| && rows == Summary(nodes[..i])
    {
      assert nodes[..i + 1] == nodes[..i] + [nodes[i]];
      if nodes[i].leg.Some? { rows := AddMember(nodes[..i], nodes[i], rows); } else { NoNewMember(nodes[..i], nodes[i]); }
      i := i + 1;
    }
    assert nodes[..i] == nodes;
  }

  method AddMember(before: seq<Node>, n: Node, rows: seq<GroupRow>) returns (r: seq<GroupRow>)
    requires rows == Summary(before) && n.leg.Some?
    ensures r == Summary(before + [n])
  {
    var leg := n.leg.value;
    var k := 0;
    while k < |rows| && rows[k].id != leg.group
      invariant k <= |rows| && forall j :: 0 <= j < k ==> rows[j].id != leg.group
    {
      k := k + 1;
    }
    if k < |rows| {
      r := rows[k := rows[k].(members := rows[k].members + [n.id])];
      RowGrows(before, n, k, rows, r);
    } else {
      r := rows + [GroupRow(leg.group, leg.groupKind, leg.joinPolicy, leg.axes, leg.count, [n.id])];
      RowOpens(before, n, rows, r);
    }
  }

  lemma RowGrows(before: seq<Node>, n: Node, k: nat, rows: seq<GroupRow>, r: seq<GroupRow>)
    requires rows == Summary(before) && n.leg.Some? && k < |rows| && rows[k].id == n.leg.value.group
    requires r == rows[k := rows[k].(members := rows[k].members + [n.id])]
    ensures r == Summary(before + [n])
  {
    var after := before + [n];
    assert after[..|after| - 1] == before;
    MembersGrow(after);
    GroupIdsDistinct(before);
    var ids := GroupIds(before);
    assert ids[k] in ids && GroupIds(after) == ids;
    forall j | 0 <= j < |ids| ensures r[j] == RowFrom(MembersOf(after, ids[j]), ids[j]) {
      if j == k {
        IdsOfAppend(MembersOf(before, ids[j]), n);
      } else {
        assert ids[j] != ids[k];
      }
    }
  }

  lemma RowOpens(before: seq<Node>, n: Node, rows: seq<GroupRow>, r: seq<GroupRow>)
    requires rows == Summary(before) && n.leg.Some? && forall j :: 0 <= j < |rows| ==> rows[j].id != n.leg.value.group
    requires var leg := n.leg.value; r == rows + [GroupRow(leg.group, leg.groupKind, leg.joinPolicy, leg.axes, leg.count, [n.id])]
    ensures r == Summary(before + [n])
  {
    var ids := GroupIds(before);
    assert forall j :: 0 <= j < |ids| ==> rows[j].id == ids[j];
    GroupOpens(before, n);
    assert IdsOf([n]) == [n.id];
    var all := GroupIds(before + [n]);
    forall j | 0 <= j < |all| ensures r[j] == RowFrom(MembersOf(before + [n], all[j]), all[j]) {
      if j < |ids| { assert ids[j] != n.leg.value.group; }
    }
  }

  lemma GroupOpens(before: seq<Node>, n: Node)
    requires n.leg.Some? && n.leg.value.group !in GroupIds(before)
    ensures GroupIds(before + [n]) == GroupIds(before) + [n.leg.value.group] && MembersOf(before + [n], n.leg.value.group) == [n]
    ensures forall g :: g != n.leg.value.group ==> MembersOf(before + [n], g) == MembersOf(before, g)
  {
    var after := before + [n];
    assert after[..|after| - 1] == before;
    MembersGrow(after);
    NoMembersYet(before, n.leg.value.group);
    forall g | g != n.leg.value.group ensures MembersOf(after, g) == MembersOf(before, g) {
      assert MembersOf(after, g) == MembersOf(before, g) + [];
    }
  }

  lemma IdsOfAppend(members: seq<Node>, n: Node)
    ensures IdsOf(members + [n]) == IdsOf(members) + [n.id]
  {
  }

  lemma NoNewMember(before: seq<Node>, n: Node)
    requires n.leg.None?
    ensures Summary(before + [n]) == Summary(before)
  {
    var after := before + [n];
    assert after[..|after| - 1] == before;
    MembersGrow(after);
    forall g ensures MembersOf(after, g) == MembersOf(before, g) {}
  }

  predicate Distinct(ids: seq<string>) {
    forall i, j :: 0 <= i < j < |ids| ==> ids[i] != ids[j]
  }

  lemma DistinctAppend(ids: seq<string>, id: string)
    requires Distinct(ids) && id !in ids
    ensures Distinct(ids + [id])
  {
  }

  lemma {:induction false} GroupIdsDistinct(nodes: seq<Node>)
    ensures Distinct(GroupIds(nodes))
    decreases |nodes|
  {
    if nodes != [] {
      var before := GroupIds(nodes[..|nodes| - 1]);
      GroupIdsDistinct(nodes[..|nodes| - 1]);
      var last := nodes[|nodes| - 1];
      if last.leg.Some? && last.leg.value.group !in before { DistinctAppend(before, last.leg.value.group); }
    }
  }

  lemma {:induction false} NoMembersYet(nodes: seq<Node>, g: string)
    requires g !in GroupIds(nodes)
    ensures MembersOf(nodes, g) == []
    decreases |nodes|
  {
    if nodes != [] {
      MembersGrow(nodes);
      NoMembersYet(nodes[..|nodes| - 1], g);
    }
  }

  /* ---- Compilation ---- */

  function Inferred(recipe: Recipe, req: Request): Tier {
    if req.signals != {} then Standard else if req.predicates == recipe.predicates then Direct else Quick
  }

  /** The larger of the requested and the inferred tier; `auto` asks for standard. */
  function Effective(recipe: Recipe, req: Request): Tier {
    var requested := match req.requested case None => Standard case Some(t) => t;
    if Rank(Inferred(recipe, req)) > Rank(requested) then Inferred(recipe, req) else requested
  }

  function SmallNode(id: Id, kind: Kind, depth: nat, unit: string, profile: Option<string>, scopes: seq<string>, gate: string,
                     surface: string, registered: bool): Node
  {
    Node(id, kind, unit, Some(depth), profile, [], [], [], scopes, gate, Some(true), Some(gate), None, None,
         Keys(false, Some(surface), Some(Flag(registered)), None))
  }

  function InlineNode(recipe: Recipe): Node {
    SmallNode("inline", CapabilityOwner, 0, "", None, recipe.quickScopes, "inline-complete", "inline", false)
  }

  function QuickNode(reg: Registry, recipe: Recipe): Node {
    SmallNode("one-shot", recipe.quickKind, 1, "_kernel/owner", ProfileFor(reg, Quick), recipe.quickScopes, "quick-complete",
              "registered-headless", true)
  }

  /** Depth-2 nodes are sealed with the fallback chain and their harness affinity; other nodes bring
      their own affinity along. */
  function Sealed(n: Node, chain: seq<E.Hop>, affinity: Option<map<Id, string>>): RouteNode {
    if n.depth != Some(2) then RouteNode(n, None, n.keys.affinity)
    else
      var key := if n.leg.Some? then n.leg.value.anchor else n.id;
      var stage := match affinity
                   case None => "unspecified"
                   case Some(table) => if key in table then table[key] else "unspecified";
      RouteNode(n, Some(chain), Some(stage))
  }

  function SealAll(nodes: seq<Node>, chain: seq<E.Hop>, affinity: Option<map<Id, string>>): seq<RouteNode> {
    seq(|nodes|, i requires 0 <= i < |nodes| => Sealed(nodes[i], chain, affinity))
  }

  function ProfileFor(reg: Registry, tier: Tier): Option<string> {
    if tier in reg.ownerProfile && tier != Direct then Some(reg.ownerProfile[tier]) else None
  }

  function Finish(reg: Registry, recipe: Recipe, req: Request, tier: Tier, nodes: seq<RouteNode>, launch: Launch,
                  reason: Option<string>, evidence: Option<E.Checked>, candidates: Option<seq<E.HeadlessRow>>): Result<Route, CompileError>
  {
    match ContractOf(Bare(nodes))
    case None => Err(NoContract)
    case Some(contract) =>
      Ok(Route(tier, ProfileFor(reg, tier),
               if tier == Direct then 0 else if tier == Quick then 1 else recipe.ownerDepth,
               if tier == Direct then 0 else if tier == Quick then 1 else recipe.maxDepth,
               launch, reason, req.tracking, req.gate, SpecTouch(nodes), req.signals, nodes, Summary(Bare(nodes)),
               RealExtensions(recipe, tier), recipe.humanGates, Bindings(recipe, tier), contract, evidence, candidates,
               tier == Quick, if req.composed then Some(recipe) else None))
  }

  function CompileDirect(reg: Registry, recipe: Recipe, req: Request): Result<Route, CompileError> {
    var reason := if req.inlineReason.None? then "atomic-direct" else req.inlineReason.value;
    if reason !in reg.inlineReasons then Err(InlineReason)
    else if !GateFine(req.tracking, req.gate) then Err(GateMissing)
    else
      Finish(reg, recipe, req, Direct, [RouteNode(InlineNode(recipe), None, None)], Interactive, Some(reason), None, None)
  }

  function CompileQuick(reg: Registry, recipe: Recipe, req: Request): Result<Route, CompileError> {
    if req.launch == Some(Interactive) then Err(InvalidTransport)
    else
      match E.NormalizeHeadless(req.headless)
      case Err(e) => Err(BadEvidence(e))
      case Ok(rows) =>
        if req.inlineReason.Some? then Err(InlineReason)
        else if !GateFine(req.tracking, req.gate) then Err(GateMissing)
        else
          Finish(reg, recipe, req, Quick, [RouteNode(QuickNode(reg, recipe), None, None)], Headless, None, None, Some(rows))
  }

  function CompileStaged(reg: Registry, recipe: Recipe, req: Request, tier: Tier): Result<Route, CompileError>
    requires ValidGroups(recipe.groups, tier)
  {
    if req.launch == Some(Interactive) then Err(InvalidTransport)
    else if req.inlineReason.Some? then Err(InlineReason)
    else if !GateFine(req.tracking, req.gate) then Err(GateMissing)
    else
      var nodes := Expand(recipe.nodes, recipe.groups, tier);
      match ParentDepth(nodes, recipe.ownerDepth)
      case Err(e) => Err(BadEvidence(e))
      case Ok(depth) =>
        match E.Normalize(req.dispatch, depth)
        case Err(e) => Err(BadEvidence(e))
        case Ok(checked) =>
          match E.FallbackChain(checked, depth)
          case Err(e) => Err(BadEvidence(e))
          case Ok(chain) =>
            Finish(reg, recipe, req, tier, SealAll(nodes, chain, req.affinity), Headless, None, Some(checked), None)
  }

  function Compile(reg: Registry, recipe: Recipe, req: Request): Result<Route, CompileError>
    requires forall t :: !Small(t) ==> ValidGroups(recipe.groups, t)
  {
    var tier := Effective(recipe, req);
    if !(req.predicates <= recipe.predicates) then Err(UnknownPredicates)
    else if req.signals * TRACKING != {} then Err(TrackingSignal)
    else if !(req.signals <= recipe.signals) then Err(UnknownSignals)
    else if req.composed && Small(tier) then Err(ComposedTooSmall)
    else if tier == Direct then CompileDirect(reg, recipe, req)
    else if tier == Quick then CompileQuick(reg, recipe, req)
    else
      assert !Small(tier);
      CompileStaged(reg, recipe, req, tier)
  }
}
