/** What a route must be to pass the verifier, told in its own fields, for any route at all. */
module VerifySound {
  import opened Prelude
  import opened RouteNodes
  import opened Scopes
  import opened Expansion
  import opened WorkflowContract
  import opened RouteCompiler
  import opened RouteVerifier
  import opened CompileThenVerify
  import E = Evidence
  import opened EvidenceOutcome

  /* ---- The contract ---- */

  predicate Wanted(nodes: seq<Node>, id: Id) {
    exists i :: 0 <= i < |nodes| && id in nodes[i].deps
  }

  predicate ContinuesAs(c: Continuation, kind: ContinuationKind) {
    && (c.InlineNext? <==> kind == InlineNextKind) && (c.Supervised? <==> kind == SupervisedKind)
    && (c.HumanGate? <==> kind == HumanGateKind) && (c.Monitor? <==> kind == MonitorKind)
  }

  /** A node others depend on goes on in a named way; any other ends the workflow under a gate and is no
      detached run. */
  predicate NodeSealed(nodes: seq<Node>, n: Node) {
    if Wanted(nodes, n.id) then n.continuation.Some?
    else n.terminal == Some(true) && n.terminalGate.Some? && n.terminalGate.value != "" && n.kind != ResourceRunner
  }

  /** The contract lists the names nobody depends on as terminals, and how each other name goes on. */
  ghost predicate ContractSealed(nodes: seq<Node>, c: Contract) {
    && c.terminals != {}
    && (forall i :: 0 <= i < |nodes| ==> NodeSealed(nodes, nodes[i]))
    && (forall id :: id in c.terminals <==> HasId(nodes, id) && !Wanted(nodes, id))
    && (forall id :: id in c.continuations <==> HasId(nodes, id) && Wanted(nodes, id))
    && (forall i :: 0 <= i < |nodes| && nodes[i].id in c.continuations && LastOfName(nodes, i) ==>
          nodes[i].continuation.Some? && ContinuesAs(nodes[i].continuation.value, c.continuations[nodes[i].id]))
  }

  lemma ContractNames(nodes: seq<Node>, c: Contract)
    requires ContractOf(nodes) == Some(c)
    ensures c.terminals != {} && forall i :: 0 <= i < |nodes| ==> NodeSealed(nodes, nodes[i])
    ensures forall id :: id in c.terminals <==> HasId(nodes, id) && !Wanted(nodes, id)
  {
    forall id ensures HasDependent(nodes, id) <==> Wanted(nodes, id) {}
    forall i | 0 <= i < |nodes| ensures NodeSealed(nodes, nodes[i]) {
      assert Seals(nodes[i], !HasDependent(nodes, nodes[i].id));
    }
  }

  lemma ContinuationNames(nodes: seq<Node>, c: Contract, id: Id)
    requires ContractOf(nodes) == Some(c)
    ensures id in c.continuations <==> HasId(nodes, id) && Wanted(nodes, id)
  {
    assert HasDependent(nodes, id) <==> Wanted(nodes, id);
    if HasId(nodes, id) && Wanted(nodes, id) {
      var i := LastIndex(nodes, id);
      ContractAt(nodes, i);
    }
  }

  lemma ContractIsSealed(nodes: seq<Node>, c: Contract)
    requires ContractOf(nodes) == Some(c)
    ensures ContractSealed(nodes, c)
  {
    ContractNames(nodes, c);
    forall id ensures id in c.continuations <==> HasId(nodes, id) && Wanted(nodes, id) { ContinuationNames(nodes, c, id); }
    forall i | 0 <= i < |nodes| && nodes[i].id in c.continuations && LastOfName(nodes, i)
      ensures nodes[i].continuation.Some? && ContinuesAs(nodes[i].continuation.value, c.continuations[nodes[i].id])
    {
      ContractAt(nodes, i);
    }
  }

  lemma WantedIs(nodes: seq<Node>, id: Id)
    ensures HasDependent(nodes, id) <==> Wanted(nodes, id)
  {
  }

  lemma SealedNodes(nodes: seq<Node>, c: Contract)
    requires ContractSealed(nodes, c)
    ensures AllSeal(nodes)
    ensures forall i :: 0 <= i < |nodes| ==> if HasDependent(nodes, nodes[i].id) then nodes[i].id in c.continuations else nodes[i].id in c.terminals
  {
    forall i | 0 <= i < |nodes|
      ensures Seals(nodes[i], !HasDependent(nodes, nodes[i].id))
      ensures if HasDependent(nodes, nodes[i].id) then nodes[i].id in c.continuations else nodes[i].id in c.terminals
    {
      WantedIs(nodes, nodes[i].id);
      assert NodeSealed(nodes, nodes[i]) && HasId(nodes, nodes[i].id);
    }
  }

  lemma SealedNames(nodes: seq<Node>, c: Contract)
    requires ContractSealed(nodes, c)
    ensures forall id :: id in c.terminals ==> IsSink(nodes, id)
    ensures forall id :: id in c.continuations ==> HasId(nodes, id) && HasDependent(nodes, id)
  {
    forall id | id in c.terminals ensures IsSink(nodes, id) { WantedIs(nodes, id); }
    forall id | id in c.continuations ensures HasId(nodes, id) && HasDependent(nodes, id) { WantedIs(nodes, id); }
  }

  lemma SealedKinds(nodes: seq<Node>, c: Contract)
    requires ContractSealed(nodes, c)
    ensures c.terminals != {}
    ensures forall i :: 0 <= i < |nodes| && nodes[i].id in c.continuations && LastOfName(nodes, i) ==>
              NextKind(nodes[i]) == Some(c.continuations[nodes[i].id])
  {
    forall i | 0 <= i < |nodes| && nodes[i].id in c.continuations && LastOfName(nodes, i)
      ensures NextKind(nodes[i]) == Some(c.continuations[nodes[i].id])
    {
      assert ContinuesAs(nodes[i].continuation.value, c.continuations[nodes[i].id]);
    }
  }

  lemma FitsFrom(nodes: seq<Node>, c: Contract)
    requires c.terminals != {}
    requires forall i :: 0 <= i < |nodes| ==> if HasDependent(nodes, nodes[i].id) then nodes[i].id in c.continuations else nodes[i].id in c.terminals
    requires forall id :: id in c.terminals ==> IsSink(nodes, id)
    requires forall id :: id in c.continuations ==> HasId(nodes, id) && HasDependent(nodes, id)
    requires forall i :: 0 <= i < |nodes| && nodes[i].id in c.continuations && LastOfName(nodes, i) ==>
               NextKind(nodes[i]) == Some(c.continuations[nodes[i].id])
    ensures ContractFits(nodes, c)
  {
  }

  lemma SealedFits(nodes: seq<Node>, c: Contract)
    requires ContractSealed(nodes, c)
    ensures ContractFits(nodes, c)
  {
    SealedNodes(nodes, c);
    SealedNames(nodes, c);
    SealedKinds(nodes, c);
    FitsFrom(nodes, c);
  }

  lemma SealedIsContract(nodes: seq<Node>, c: Contract)
    requires ContractSealed(nodes, c)
    ensures ContractOf(nodes) == Some(c)
  {
    SealedNodes(nodes, c);
    SealedFits(nodes, c);
    ContractOfFits(nodes, c);
  }

  /** The contract a route is held against is the one whose terminals and continuations are as they must be. */
  lemma ContractExactly(nodes: seq<Node>, c: Contract)
    ensures ContractOf(nodes) == Some(c) <==> ContractSealed(nodes, c)
  {
    if ContractOf(nodes) == Some(c) { ContractIsSealed(nodes, c); }
    if ContractSealed(nodes, c) { SealedIsContract(nodes, c); }
  }

  /* ---- Nodes ---- */

  predicate Worker(n: Node) {
    n.kind != ResourceRunner
  }

  predicate Owns(tier: Tier, n: Node) {
    tier !in {Direct, Quick} && n.kind == CapabilityOwner && n.unit == "_kernel/owner"
  }

  /** The profile the registry has for the owner at a tier; a direct route has no owner. */
  function OwnerOf(reg: Registry, tier: Tier): Option<string> {
    if tier != Direct && tier in reg.ownerProfile then Some(reg.ownerProfile[tier]) else None
  }

  /** Profile, depth, ownership and keys of one node. */
  predicate NodeHolds(reg: Registry, affinities: set<string>, tier: Tier, rn: RouteNode) {
    var n := rn.node;
    if n.kind == ResourceRunner then n.depth.None? && rn.hops.None?
    else
      && n.depth in {Some(0), Some(1), Some(2)}
      && (n.depth != Some(0) ==> n.profile.Some? && n.profile.value in reg.registered)
      && (Owns(tier, n) ==> n.depth == Some(1) && n.profile == OwnerOf(reg, tier))
      && (rn.affinity.Some? ==> rn.affinity.value in affinities)
      && n.keys.dispatchFallback == false && n.keys.registered != Some(NotBoolean)
      && (n.keys.surface.None? || n.keys.surface.value in
            {"registered-headless", "codex-native-subagent", "claude-subagent", "claude-agent-team-teammate", "inline"})
      && (n.leg.Some? ==> n.leg.value.alias == Some(n.leg.value.group))
  }

  lemma NodeFineHolds(reg: Registry, affinities: set<string>, tier: Tier, rn: RouteNode)
    ensures NodeFine(reg, affinities, tier, rn) <==> NodeHolds(reg, affinities, tier, rn)
  {
  }

  lemma {:induction false} NodesHold(reg: Registry, affinities: set<string>, tier: Tier, nodes: seq<RouteNode>)
    requires FirstBroken(reg, affinities, tier, nodes) == None
    ensures forall i :: 0 <= i < |nodes| ==> NodeHolds(reg, affinities, tier, nodes[i])
  {
    if nodes != [] {
      NodeFineHolds(reg, affinities, tier, nodes[0]);
      NodesHold(reg, affinities, tier, nodes[1..]);
      assert forall i :: 0 < i < |nodes| ==> nodes[i] == nodes[1..][i - 1];
    }
  }

  /* ---- Groups ---- */

  predicate MemberAt(nodes: seq<Node>, p: nat, group: string) {
    p < |nodes| && nodes[p].kind != ResourceRunner && nodes[p].leg.Some? && nodes[p].leg.value.group == group
  }

  /** The places of the agents of a group, in node order. */
  function Places(nodes: seq<Node>, group: string): (r: seq<nat>)
    ensures forall k :: 0 <= k < |r| ==> MemberAt(nodes, r[k], group)
    decreases |nodes|
  {
    if nodes == [] then []
    else
      var k := |nodes| - 1;
      Places(nodes[..k], group) + if MemberAt(nodes, k, group) then [k] else []
  }

  lemma AgentsAppend(nodes: seq<Node>, n: Node)
    ensures Agents(nodes + [n]) == Agents(nodes) + if Worker(n) then [n] else []
  {
    AgentsJoin(nodes, [n]);
    assert [n][1..] == [];
    assert Agents([n]) == if Worker(n) then [n] else [];
  }

  lemma {:induction false} PlacesAreMembers(nodes: seq<Node>, group: string)
    ensures |Places(nodes, group)| == |MembersOf(Agents(nodes), group)|
    ensures forall k :: 0 <= k < |Places(nodes, group)| ==> nodes[Places(nodes, group)[k]] == MembersOf(Agents(nodes), group)[k]
    decreases |nodes|
  {
    if nodes != [] {
      var k := |nodes| - 1;
      var before, n := nodes[..k], nodes[k];
      PlacesAreMembers(before, group);
      assert nodes == before + [n];
      AgentsAppend(before, n);
      MembersAppend(Agents(before), n, group);
    }
  }

  lemma MembersAppend(agents: seq<Node>, n: Node, group: string)
    ensures MembersOf(agents + [n], group) == MembersOf(agents, group) + if InGroup(n, group) then [n] else []
    ensures agents + [] == agents
  {
    MembersJoin(agents, [n], group);
    assert [n][1..] == [];
  }

  lemma {:induction false} PlacesAreAll(nodes: seq<Node>, group: string, p: nat)
    requires MemberAt(nodes, p, group)
    ensures p in Places(nodes, group)
    decreases |nodes|
  {
    var k := |nodes| - 1;
    if p < k { PlacesAreAll(nodes[..k], group, p); }
  }

  /** Sorting moves the members: `at` says from where, and forgets none. */
  lemma {:induction false} InsertAt(n: Node, sorted: seq<Node>) returns (k: nat)
    ensures k <= |sorted| && RouteVerifier.Insert(n, sorted) == sorted[..k] + [n] + sorted[k..]
  {
    if sorted == [] || IndexOf(n) <= IndexOf(sorted[0]) {
      k := 0;
    } else {
      var j := InsertAt(n, sorted[1..]);
      k := j + 1;
      assert sorted[..k] == [sorted[0]] + sorted[1..][..j] && sorted[k..] == sorted[1..][j..];
    }
  }

  predicate Moves(at: seq<nat>, from: seq<Node>, to: seq<Node>) {
    && |at| == |from| == |to|
    && (forall i :: 0 <= i < |at| ==> at[i] < |from| && to[i] == from[at[i]])
    && forall k :: 0 <= k < |from| ==> k in at
  }

  lemma {:induction false} SortMoves(members: seq<Node>) returns (at: seq<nat>)
    ensures Moves(at, members, SortByIndex(members))
  {
    at := [];
    if members != [] {
      var before := SortMoves(members[1..]);
      var sorted := SortByIndex(members[1..]);
      var k := InsertAt(members[0], sorted);
      var moved: seq<nat> := seq(|before|, i requires 0 <= i < |before| => before[i] + 1);
      at := moved[..k] + [0] + moved[k..];
      InsertMoves(members, before, moved, k, at);
    }
  }

  lemma InsertMoves(members: seq<Node>, before: seq<nat>, moved: seq<nat>, k: nat, at: seq<nat>)
    requires members != [] && Moves(before, members[1..], SortByIndex(members[1..])) && k <= |before|
    requires |moved| == |before| && forall i :: 0 <= i < |before| ==> moved[i] == before[i] + 1
    requires at == moved[..k] + [0] + moved[k..]
    requires var sorted := SortByIndex(members[1..]); SortByIndex(members) == sorted[..k] + [members[0]] + sorted[k..]
    ensures Moves(at, members, SortByIndex(members))
  {
    var sorted, after := SortByIndex(members[1..]), SortByIndex(members);
    forall i | 0 <= i < |moved| ensures moved[i] < |members| && sorted[i] == members[moved[i]] {}
    MovedInto(members, sorted, moved, k, at, after);
    forall j | 0 <= j < |members| ensures j in at {
      if j == 0 { assert at[k] == 0; } else { MovedHas(members, before, moved, k, at, j); }
    }
  }

  lemma MovedInto(members: seq<Node>, sorted: seq<Node>, moved: seq<nat>, k: nat, at: seq<nat>, after: seq<Node>)
    requires members != [] && |sorted| == |moved| && k <= |moved|
    requires forall i :: 0 <= i < |moved| ==> moved[i] < |members| && sorted[i] == members[moved[i]]
    requires at == moved[..k] + [0] + moved[k..] && after == sorted[..k] + [members[0]] + sorted[k..]
    ensures |at| == |after| && forall i :: 0 <= i < |at| ==> at[i] < |members| && after[i] == members[at[i]]
  {
  }

  lemma MovedHas(members: seq<Node>, before: seq<nat>, moved: seq<nat>, k: nat, at: seq<nat>, j: nat)
    requires 0 < j < |members| && Moves(before, members[1..], SortByIndex(members[1..])) && k <= |before|
    requires |moved| == |before| && forall i :: 0 <= i < |before| ==> moved[i] == before[i] + 1
    requires at == moved[..k] + [0] + moved[k..]
    ensures j in at
  {
    assert j - 1 in before;
    var i :| 0 <= i < |before| && before[i] == j - 1;
    assert moved[i] == j;
    assert at[if i < k then i else i + 1] == moved[i];
  }

  /** Where the legs of a group are: one agent for each index below the width, all of one kind. */
  ghost predicate RowAt(nodes: seq<Node>, row: GroupRow, at: seq<nat>) {
    && |at| == |row.members| == row.width && |at| > 0
    && (forall i :: 0 <= i < |at| ==>
          && MemberAt(nodes, at[i], row.id) && nodes[at[i]].id == row.members[i]
          && var leg := nodes[at[i]].leg.value;
             leg.index == i && leg.count == |at| && leg.groupKind == row.kind && leg.joinPolicy == row.joinPolicy && leg.axes == row.axes)
    && (forall p: nat :: MemberAt(nodes, p, row.id) ==> p in at)
    && forall i, j, a, b :: 0 <= i < j < |at| && 0 <= a < |nodes[at[i]].scopes| && 0 <= b < |nodes[at[j]].scopes| ==>
         Overlap(nodes[at[i]].scopes[a], nodes[at[j]].scopes[b]) == Ok(false)
  }

  ghost predicate RowHolds(nodes: seq<Node>, row: GroupRow) {
    exists at :: RowAt(nodes, row, at)
  }

  lemma SortedPlaces(nodes: seq<Node>, group: string) returns (at: seq<nat>)
    ensures |at| == |GroupMembers(nodes, group)|
    ensures forall i :: 0 <= i < |at| ==> MemberAt(nodes, at[i], group) && nodes[at[i]] == GroupMembers(nodes, group)[i]
    ensures forall p: nat :: MemberAt(nodes, p, group) ==> p in at
  {
    var places, members := Places(nodes, group), MembersOf(Agents(nodes), group);
    PlacesAreMembers(nodes, group);
    var moves := SortMoves(members);
    at := seq(|moves|, i requires 0 <= i < |moves| => places[moves[i]]);
    forall p: nat | MemberAt(nodes, p, group) ensures p in at {
      PlacesAreAll(nodes, group, p);
      MovedPlace(places, moves, members, at, p);
    }
  }

  lemma MovedPlace(places: seq<nat>, moves: seq<nat>, members: seq<Node>, at: seq<nat>, p: nat)
    requires |places| == |members| && Moves(moves, members, SortByIndex(members)) && p in places
    requires |at| == |moves| && forall i :: 0 <= i < |moves| ==> at[i] == places[moves[i]]
    ensures p in at
  {
    var k :| 0 <= k < |places| && places[k] == p;
    MovedFrom(moves, members, SortByIndex(members), k);
    var i :| 0 <= i < |moves| && moves[i] == k;
    assert at[i] == p;
  }

  lemma MovedFrom(at: seq<nat>, from: seq<Node>, to: seq<Node>, k: nat)
    requires Moves(at, from, to) && k < |from|
    ensures k in at
  {
  }

  lemma GroupRowAt(nodes: seq<Node>, group: string)
    requires GroupFine(GroupMembers(nodes, group))
    ensures RowHolds(nodes, RowFrom(GroupMembers(nodes, group), group))
  {
    var at := SortedPlaces(nodes, group);
    RowOfSorted(nodes, group, at);
  }

  lemma RowOfSorted(nodes: seq<Node>, group: string, at: seq<nat>)
    requires GroupFine(GroupMembers(nodes, group)) && |at| == |GroupMembers(nodes, group)|
    requires forall i :: 0 <= i < |at| ==> MemberAt(nodes, at[i], group) && nodes[at[i]] == GroupMembers(nodes, group)[i]
    requires forall p: nat :: MemberAt(nodes, p, group) ==> p in at
    ensures RowAt(nodes, RowFrom(GroupMembers(nodes, group), group), at)
  {
    var members := GroupMembers(nodes, group);
    forall i, j, a, b | 0 <= i < j < |at| && 0 <= a < |nodes[at[i]].scopes| && 0 <= b < |nodes[at[j]].scopes|
      ensures Overlap(nodes[at[i]].scopes[a], nodes[at[j]].scopes[b]) == Ok(false)
    {
      assert ScopesApart(members[i].scopes, members[j].scopes);
      assert PairFine(members[i].scopes[a], members[j].scopes[b]);
    }
  }

  /** The first agent of a group. */
  predicate FirstAt(nodes: seq<Node>, p: nat, group: string) {
    MemberAt(nodes, p, group) && forall q :: 0 <= q < p ==> !MemberAt(nodes, q, group)
  }

  ghost predicate OpensBefore(nodes: seq<Node>, a: string, b: string) {
    exists p: nat, q: nat :: p < q && FirstAt(nodes, p, a) && FirstAt(nodes, q, b)
  }

  /** A row for every group of the agents, in the order of their first members. */
  ghost predicate RowsHold(nodes: seq<Node>, rows: seq<GroupRow>) {
    && (forall k :: 0 <= k < |rows| ==> RowHolds(nodes, rows[k]))
    && (forall p :: 0 <= p < |nodes| && Worker(nodes[p]) && nodes[p].leg.Some? ==> exists k :: 0 <= k < |rows| && rows[k].id == nodes[p].leg.value.group)
    && forall j, k :: 0 <= j < k < |rows| ==> OpensBefore(nodes, rows[j].id, rows[k].id)
  }

  predicate CoversGroups(nodes: seq<Node>, ids: seq<string>) {
    forall p :: 0 <= p < |nodes| && Worker(nodes[p]) && nodes[p].leg.Some? ==> nodes[p].leg.value.group in ids
  }

  /** The groups of a list of ids open in its order. */
  ghost predicate Opened(nodes: seq<Node>, ids: seq<string>) {
    && (forall j, k :: 0 <= j < k < |ids| ==> OpensBefore(nodes, ids[j], ids[k]))
    && forall g :: g in ids ==> exists p: nat :: FirstAt(nodes, p, g)
  }

  lemma {:induction false} AgentGroups(nodes: seq<Node>)
    ensures CoversGroups(nodes, GroupIds(Agents(nodes))) && Opened(nodes, GroupIds(Agents(nodes)))
    decreases |nodes|
  {
    if nodes != [] {
      var k := |nodes| - 1;
      var before, n := nodes[..k], nodes[k];
      AgentGroups(before);
      AgentsAppend(before, n);
      assert nodes == before + [n];
      OpenedStays(nodes, k, GroupIds(Agents(before)));
      GroupsAfter(Agents(before), n);
      if Worker(n) && n.leg.Some? { GroupMayOpen(nodes, k, GroupIds(Agents(before)), n.leg.value.group); }
    }
  }

  lemma GroupsAfter(agents: seq<Node>, n: Node)
    ensures GroupIds(agents + [n]) ==
            GroupIds(agents) + if n.leg.Some? && n.leg.value.group !in GroupIds(agents) then [n.leg.value.group] else []
    ensures agents + [] == agents
  {
    assert (agents + [n])[..|agents|] == agents;
  }

  lemma OpenedStays(nodes: seq<Node>, k: nat, ids: seq<string>)
    requires k <= |nodes| && Opened(nodes[..k], ids)
    ensures Opened(nodes, ids)
  {
    FirstsStay(nodes, k);
    forall g | g in ids ensures exists p: nat :: FirstAt(nodes, p, g) {
      var p: nat :| FirstAt(nodes[..k], p, g);
      assert FirstAt(nodes, p, g);
    }
  }

  lemma FirstsStay(nodes: seq<Node>, k: nat)
    requires k <= |nodes|
    ensures forall p: nat, g :: FirstAt(nodes[..k], p, g) ==> FirstAt(nodes, p, g)
    ensures forall a, b :: OpensBefore(nodes[..k], a, b) ==> OpensBefore(nodes, a, b)
  {
    assert forall q: nat, g :: q < k ==> (MemberAt(nodes, q, g) <==> MemberAt(nodes[..k], q, g));
    forall a, b | OpensBefore(nodes[..k], a, b) ensures OpensBefore(nodes, a, b) {
      var p: nat, q: nat :| p < q && FirstAt(nodes[..k], p, a) && FirstAt(nodes[..k], q, b);
      assert FirstAt(nodes, p, a) && FirstAt(nodes, q, b);
    }
  }

  lemma GroupMayOpen(nodes: seq<Node>, k: nat, ids: seq<string>, g: string)
    requires k == |nodes| - 1 && MemberAt(nodes, k, g) && CoversGroups(nodes[..k], ids) && Opened(nodes[..k], ids)
    ensures CoversGroups(nodes, if g in ids then ids else ids + [g]) && Opened(nodes, if g in ids then ids else ids + [g])
  {
    OpenedStays(nodes, k, ids);
    forall p | 0 <= p < k && Worker(nodes[p]) && nodes[p].leg.Some? ensures nodes[p].leg.value.group in ids {
      assert nodes[..k][p] == nodes[p];
    }
    if g !in ids {
      assert FirstAt(nodes, k, g);
      forall h | h in ids ensures OpensBefore(nodes, h, g) {
        var p: nat :| FirstAt(nodes[..k], p, h);
        FirstsStay(nodes, k);
        assert p < k && FirstAt(nodes, p, h);
      }
      OpenedMore(nodes, ids, g);
    }
  }

  lemma OpenedMore(nodes: seq<Node>, ids: seq<string>, g: string)
    requires Opened(nodes, ids) && (forall h :: h in ids ==> OpensBefore(nodes, h, g)) && exists p: nat :: FirstAt(nodes, p, g)
    ensures Opened(nodes, ids + [g])
  {
    var more := ids + [g];
    forall j, k | 0 <= j < k < |more| ensures OpensBefore(nodes, more[j], more[k]) {
      assert more[j] == ids[j];
      if k < |ids| { assert more[k] == ids[k]; }
    }
  }

  lemma RowsAreHeld(nodes: seq<Node>)
    requires GroupsFine(nodes)
    ensures RowsHold(nodes, ExpectedRows(nodes))
  {
    var ids, rows := GroupIds(Agents(nodes)), ExpectedRows(nodes);
    AgentGroups(nodes);
    forall k | 0 <= k < |rows| ensures RowHolds(nodes, rows[k]) && rows[k].id == ids[k] { GroupRowAt(nodes, ids[k]); }
    forall p | 0 <= p < |nodes| && Worker(nodes[p]) && nodes[p].leg.Some? ensures exists k :: 0 <= k < |rows| && rows[k].id == nodes[p].leg.value.group {
      var k :| 0 <= k < |ids| && ids[k] == nodes[p].leg.value.group;
      assert rows[k].id == ids[k];
    }
  }

  /* ---- Whole routes ---- */

  predicate Named(nodes: seq<RouteNode>, id: Id) {
    exists i :: 0 <= i < |nodes| && nodes[i].node.id == id
  }

  /** What a route says of extensions, gates and bindings is the recipe's, cut down for small tiers. */
  predicate RecipeParts(held: Recipe, r: Route) {
    && |r.extensions| == |held.extensions|
    && (forall i :: 0 <= i < |r.extensions| ==> ExtensionHolds(held.extensions[i], r.extensions[i], r.tier, r.nodes))
    && r.bindings == (if r.tier in {Direct, Quick} then [] else held.bindings)
    && forall i :: 0 <= i < |r.bindings| ==> r.bindings[i].gate in r.humanGates
  }

  predicate ExtensionHolds(given: Extension, row: Extension, tier: Tier, nodes: seq<RouteNode>) {
    && row.id == given.id
    && row.after == (if tier == Direct then {"inline"} else if tier == Quick then {"one-shot"} else given.after)
    && forall x :: x in row.after ==> Named(nodes, x)
  }

  /** The largest of the owner's depth and those of the agents. */
  predicate DepthsHold(r: Route) {
    && r.ownerDepth <= 1 && r.ownerDepth <= r.maxDepth <= 2
    && (forall i :: 0 <= i < |r.nodes| && Worker(r.nodes[i].node) ==> r.nodes[i].node.depth.Some? && r.nodes[i].node.depth.value <= r.maxDepth)
    && (r.maxDepth == r.ownerDepth || exists i :: 0 <= i < |r.nodes| && Worker(r.nodes[i].node) && r.nodes[i].node.depth == Some(r.maxDepth))
  }

  predicate GateHolds(r: Route) {
    && r.gate.mode == r.tracking && r.gate.drift != "" && r.gate.specRead.source != "" && r.gate.artifactGuard.source != ""
    && (r.tracking == Tracked ==> r.gate.specRead.satisfied && r.gate.artifactGuard.satisfied)
    && "tracked" !in r.escalation && "untracked" !in r.escalation
  }

  predicate InSpec(scope: string) {
    scope == "spec" || (|scope| >= 5 && scope[..5] == "spec/")
  }

  predicate WritesSpec(nodes: seq<RouteNode>) {
    exists i :: 0 <= i < |nodes| && exists j :: 0 <= j < |nodes[i].node.scopes| && InSpec(nodes[i].node.scopes[j])
  }

  predicate DirectHolds(r: Route) {
    && r.ownerDepth == 0 && r.maxDepth == 0 && r.launch == Interactive && r.candidates.None? && !r.serial && |r.nodes| == 1
    && var rn := r.nodes[0];
       && rn.node.id == "inline" && rn.node.depth == Some(0) && rn.hops.None?
       && rn.node.keys.surface == Some("inline") && rn.node.keys.registered == Some(Flag(false))
  }

  predicate QuickHolds(reg: Registry, r: Route) {
    && r.ownerDepth == 1 && r.maxDepth == 1 && r.launch == Headless && r.inlineReason.None? && r.serial && |r.nodes| == 1
    && r.candidates.Some? && CandidatesGood(r.candidates.value) && IsSorted(r.candidates.value, r.candidates.value)
    && var rn := r.nodes[0];
       && rn.node.id == "one-shot" && rn.node.depth == Some(1) && rn.node.unit == "_kernel/owner" && rn.hops.None?
       && rn.node.profile == OwnerOf(reg, Quick)
       && rn.node.keys.surface == Some("registered-headless") && rn.node.keys.registered == Some(Flag(true))
  }

  /** Good evidence for a parent of depth 1; every depth-2 node carries the chain built from its checked rows. */
  ghost predicate StagedHolds(r: Route) {
    && r.launch == Headless && r.ownerDepth == 1
    && (exists i :: 0 <= i < |r.nodes| && r.nodes[i].node.depth == Some(2))
    && r.evidence.Some? && EvidenceGood(r.evidence.value, 1) && SomeLaunchable(r.evidence.value.tuples)
    && exists kept :: SealedFrom(kept, r.evidence.value) && ChainEverywhere(r.nodes, kept)
  }

  ghost predicate ChainEverywhere(nodes: seq<RouteNode>, kept: E.Checked) {
    forall i :: 0 <= i < |nodes| && nodes[i].node.depth == Some(2) ==> nodes[i].hops.Some? && IsChain(nodes[i].hops.value, kept)
  }

  /** The same node but for the affinity, which sealing stamps. */
  predicate SameButStamp(n: Node, m: Node) {
    n.(keys := n.keys.(affinity := m.keys.affinity)) == m
  }

  predicate NodesOf(nodes: seq<RouteNode>, expanded: seq<Node>) {
    |nodes| == |expanded| && forall i :: 0 <= i < |nodes| ==> SameButStamp(nodes[i].node, expanded[i])
  }

  predicate ComposedHolds(r: Route)
    requires r.composed.Some? && r.tier !in {Direct, Quick} ==> ValidGroups(r.composed.value.groups, r.tier)
  {
    r.composed.Some? ==>
      && r.tier !in {Direct, Quick}
      && NodesOf(r.nodes, Expand(r.composed.value.nodes, r.composed.value.groups, r.tier))
  }

  /** What an accepted route is. */
  ghost predicate Accepted(reg: Registry, affinities: set<string>, recipe: Recipe, r: Route)
    requires r.composed.Some? && r.tier !in {Direct, Quick} ==> ValidGroups(r.composed.value.groups, r.tier)
  {
    && ComposedHolds(r)
    && RecipeParts(if r.composed.Some? then r.composed.value else recipe, r)
    && ContractSealed(Bare(r.nodes), r.contract)
    && r.ownerProfile == OwnerOf(reg, r.tier)
    && (forall i :: 0 <= i < |r.nodes| ==> NodeHolds(reg, affinities, r.tier, r.nodes[i]))
    && RowsHold(Bare(r.nodes), r.groups)
    && DepthsHold(r) && GateHolds(r) && (r.specTouch <==> WritesSpec(r.nodes))
    && (r.tier == Direct ==> DirectHolds(r)) && (r.tier == Quick ==> QuickHolds(reg, r))
    && (r.tier !in {Direct, Quick} ==> StagedHolds(r))
  }

  lemma ComposedSound(r: Route)
    requires !Small(r.tier) ==> r.composed.Some? ==> ValidGroups(r.composed.value.groups, r.tier)
    requires r.composed.Some? ==> !Small(r.tier)
    requires r.composed.Some? ==> Identities(Bare(r.nodes)) == Identities(Expand(r.composed.value.nodes, r.composed.value.groups, r.tier))
    ensures ComposedHolds(r)
  {
    if r.composed.Some? {
      var expanded, nodes := Expand(r.composed.value.nodes, r.composed.value.groups, r.tier), Bare(r.nodes);
      assert |Identities(nodes)| == |nodes| && |Identities(expanded)| == |expanded|;
      forall i | 0 <= i < |nodes| ensures SameButStamp(nodes[i], expanded[i]) {
        assert Identities(nodes)[i] == Identity(nodes[i]) && Identities(expanded)[i] == Identity(expanded[i]);
        SameIdentity(nodes[i], expanded[i]);
      }
    }
  }

  lemma SameIdentity(n: Node, m: Node)
    requires Identity(n) == Identity(m)
    ensures SameButStamp(n, m)
  {
    assert n.keys.(affinity := m.keys.affinity) == m.keys;
  }

  lemma PartsSound(held: Recipe, r: Route)
    requires r.extensions == RealExtensions(held, r.tier) && Anchored(r.extensions, Bare(r.nodes))
    requires r.bindings == Bindings(held, r.tier) && GatesDeclared(r.bindings, r.humanGates)
    ensures RecipeParts(held, r)
  {
    forall i | 0 <= i < |r.extensions| ensures ExtensionHolds(held.extensions[i], r.extensions[i], r.tier, r.nodes) {
      forall x | x in r.extensions[i].after ensures Named(r.nodes, x) {
        assert x in Ids(Bare(r.nodes));
        var k :| 0 <= k < |Bare(r.nodes)| && Bare(r.nodes)[k].id == x;
        assert r.nodes[k].node.id == x;
      }
    }
  }

  lemma DepthsSound(reg: Registry, affinities: set<string>, r: Route)
    requires r.ownerDepth <= 1 && r.maxDepth <= 2 && r.maxDepth == Deepest(Bare(r.nodes), r.ownerDepth)
    requires forall i :: 0 <= i < |r.nodes| ==> NodeHolds(reg, affinities, r.tier, r.nodes[i])
    ensures DepthsHold(r)
  {
    var nodes := Bare(r.nodes);
    forall i | 0 <= i < |r.nodes| && Worker(r.nodes[i].node) ensures r.nodes[i].node.depth.Some? && r.nodes[i].node.depth.value <= r.maxDepth {
      assert nodes[i] == r.nodes[i].node && NodeHolds(reg, affinities, r.tier, r.nodes[i]);
    }
    if r.maxDepth != r.ownerDepth {
      var i :| 0 <= i < |nodes| && IsAgent(nodes[i]) && nodes[i].depth == Some(r.maxDepth);
      assert r.nodes[i].node == nodes[i];
    }
  }

  lemma ShortTree(stem: string)
    requires |stem| < 4
    ensures !InSpec(stem + TREE)
  {
    assert (stem + TREE)[|stem|] == '/';
    assert forall i :: 0 <= i < 4 ==> "spec/"[i] != '/';
  }

  lemma TouchIs(scope: string)
    ensures TouchesSpec(scope) <==> InSpec(scope)
  {
    if IsTree(scope) {
      var stem := scope[..|scope| - 3];
      assert scope == stem + TREE;
      if |stem| >= 5 { assert scope[..5] == stem[..5]; }
      if |stem| == 4 { assert scope[..4] == stem && scope[..5] == stem + [scope[4]] && scope[4] == TREE[0]; }
      if |stem| < 4 { ShortTree(stem); }
    }
    if |scope| >= 5 { assert scope[..5] == scope[..4] + [scope[4]]; }
  }

  lemma SpecSound(nodes: seq<RouteNode>)
    ensures SpecTouch(nodes) <==> WritesSpec(nodes)
  {
    forall scope ensures TouchesSpec(scope) <==> InSpec(scope) { TouchIs(scope); }
  }

  lemma {:induction false} ChainsSound(nodes: seq<RouteNode>, chain: seq<E.Hop>, kept: E.Checked)
    requires HopsError(nodes, chain) == None && IsChain(chain, kept)
    ensures ChainEverywhere(nodes, kept)
  {
    if nodes != [] {
      ChainsSound(nodes[1..], chain, kept);
      assert forall i :: 0 < i < |nodes| ==> nodes[i] == nodes[1..][i - 1];
    }
  }

  lemma StagedSound(r: Route)
    requires StagedError(r) == None
    ensures StagedHolds(r)
  {
    var e := r.evidence.value;
    assert ParentDepth(Bare(r.nodes), r.ownerDepth) == Ok(1);
    var i :| 0 <= i < |Bare(r.nodes)| && Bare(r.nodes)[i].depth == Some(2);
    assert r.nodes[i].node.depth == Some(2);
    SealedExactly(e, 1);
    var kept := E.Normalize(e, 1).value;
    E.NormalizeIdempotent(e, 1);
    ChainExactly(kept, 1);
    KeptSupported(e, kept, 1);
    ChainsSound(r.nodes, E.FallbackChain(kept, 1).value, kept);
  }

  lemma QuickSound(reg: Registry, r: Route)
    requires QuickFine(reg, r)
    ensures QuickHolds(reg, r)
  {
    HeadlessExactly(r.candidates.value);
  }

  lemma ShapePassed(reg: Registry, r: Route)
    requires ShapeError(reg, r) == None
    ensures GateFine(r.tracking, r.gate) && r.escalation * TRACKING == {} && r.specTouch == SpecTouch(r.nodes)
    ensures (r.tier == Direct ==> DirectFine(r)) && (r.tier == Quick ==> QuickFine(reg, r))
    ensures r.tier !in {Direct, Quick} ==> StagedError(r) == None
  {
  }

  lemma GateSound(r: Route)
    requires GateFine(r.tracking, r.gate) && r.escalation * TRACKING == {}
    ensures GateHolds(r)
  {
    assert "tracked" in TRACKING && "untracked" in TRACKING;
    assert "tracked" in r.escalation ==> "tracked" in r.escalation * TRACKING;
    assert "untracked" in r.escalation ==> "untracked" in r.escalation * TRACKING;
  }

  lemma DirectSound(r: Route)
    requires DirectFine(r)
    ensures DirectHolds(r)
  {
  }

  lemma ShapeSound(reg: Registry, r: Route)
    requires ShapeError(reg, r) == None
    ensures GateHolds(r) && (r.specTouch <==> WritesSpec(r.nodes))
    ensures r.tier == Direct ==> DirectHolds(r)
    ensures r.tier == Quick ==> QuickHolds(reg, r)
    ensures r.tier !in {Direct, Quick} ==> StagedHolds(r)
  {
    ShapePassed(reg, r);
    GateSound(r);
    SpecSound(r.nodes);
    if r.tier == Direct { DirectSound(r); }
    if r.tier == Quick { QuickSound(reg, r); }
    if r.tier !in {Direct, Quick} { StagedSound(r); }
  }

  lemma GraphSound(reg: Registry, affinities: set<string>, r: Route)
    requires GraphError(reg, affinities, r) == None
    ensures (forall i :: 0 <= i < |r.nodes| ==> NodeHolds(reg, affinities, r.tier, r.nodes[i]))
    ensures RowsHold(Bare(r.nodes), r.groups) && r.maxDepth == Deepest(Bare(r.nodes), r.ownerDepth) && ShapeError(reg, r) == None
  {
    NodesHold(reg, affinities, r.tier, r.nodes);
    RowsAreHeld(Bare(r.nodes));
  }

  lemma VerifyPassed(reg: Registry, affinities: set<string>, recipe: Recipe, r: Route)
    requires !Small(r.tier) ==> ValidGroups(HeldAgainst(recipe, r).groups, r.tier)
    requires Verify(reg, affinities, recipe, r) == None
    ensures r.composed.Some? ==> !Small(r.tier)
    ensures r.composed.Some? ==> Identities(Bare(r.nodes)) == Identities(Expand(r.composed.value.nodes, r.composed.value.groups, r.tier))
    ensures r.extensions == RealExtensions(HeldAgainst(recipe, r), r.tier) && Anchored(r.extensions, Bare(r.nodes))
    ensures r.bindings == Bindings(HeldAgainst(recipe, r), r.tier) && GatesDeclared(r.bindings, r.humanGates)
    ensures ContractOf(Bare(r.nodes)) == Some(r.contract)
    ensures r.ownerDepth <= 1 && r.maxDepth <= 2 && r.ownerProfile == ProfileFor(reg, r.tier)
    ensures GraphError(reg, affinities, r) == None
  {
  }

  /** Whatever route the verifier accepts, compiled or not, is what it must be. */
  lemma AcceptedIsSound(reg: Registry, affinities: set<string>, recipe: Recipe, r: Route)
    requires !Small(r.tier) ==> ValidGroups(HeldAgainst(recipe, r).groups, r.tier)
    requires Verify(reg, affinities, recipe, r) == None
    ensures Accepted(reg, affinities, recipe, r)
  {
    VerifyPassed(reg, affinities, recipe, r);
    ComposedSound(r);
    PartsSound(if r.composed.Some? then r.composed.value else recipe, r);
    ContractIsSealed(Bare(r.nodes), r.contract);
    GraphSound(reg, affinities, r);
    DepthsSound(reg, affinities, r);
    ShapeSound(reg, r);
    assert r.ownerProfile == OwnerOf(reg, r.tier);
  }

  lemma GraphPassed(reg: Registry, affinities: set<string>, r: Route)
    requires GraphError(reg, affinities, r) == None
    ensures GroupsFine(Bare(r.nodes)) && r.groups == ExpectedRows(Bare(r.nodes))
    ensures r.maxDepth == Deepest(Bare(r.nodes), r.ownerDepth) && ShapeError(reg, r) == None
  {
  }

  /** An accepted route stays accepted under no change of what is derived from the rest: owner profile,
      depth, spec mark, groups, extensions, bindings and contract. */
  lemma ChangedIsRefused(reg: Registry, affinities: set<string>, recipe: Recipe, r: Route, s: Route)
    requires !Small(r.tier) ==> ValidGroups(HeldAgainst(recipe, r).groups, r.tier)
    requires Verify(reg, affinities, recipe, r) == None && s != r
    requires s == r.(ownerProfile := s.ownerProfile, maxDepth := s.maxDepth, specTouch := s.specTouch, groups := s.groups,
                     extensions := s.extensions, bindings := s.bindings, contract := s.contract)
    ensures Verify(reg, affinities, recipe, s) != None
  {
    if Verify(reg, affinities, recipe, s) == None { BothAccepted(reg, affinities, recipe, r, s); }
  }

  lemma BothAccepted(reg: Registry, affinities: set<string>, recipe: Recipe, r: Route, s: Route)
    requires !Small(r.tier) ==> ValidGroups(HeldAgainst(recipe, r).groups, r.tier)
    requires s == r.(ownerProfile := s.ownerProfile, maxDepth := s.maxDepth, specTouch := s.specTouch, groups := s.groups,
                     extensions := s.extensions, bindings := s.bindings, contract := s.contract)
    requires Verify(reg, affinities, recipe, r) == None && Verify(reg, affinities, recipe, s) == None
    ensures s == r
  {
    VerifyPassed(reg, affinities, recipe, r);
    GraphPassed(reg, affinities, r);
    ShapePassed(reg, r);
    VerifyPassed(reg, affinities, recipe, s);
    GraphPassed(reg, affinities, s);
    ShapePassed(reg, s);
  }

  lemma {:induction false} HopsAre(nodes: seq<RouteNode>, chain: seq<E.Hop>)
    requires HopsError(nodes, chain) == None
    ensures forall i :: 0 <= i < |nodes| && nodes[i].node.depth == Some(2) ==> nodes[i].hops == Some(chain)
  {
    if nodes != [] {
      HopsAre(nodes[1..], chain);
      assert forall i :: 0 < i < |nodes| ==> nodes[i] == nodes[1..][i - 1];
    }
  }

  lemma StagedChain(r: Route) returns (chain: seq<E.Hop>)
    requires StagedError(r) == None
    ensures r.evidence.Some? && E.Normalize(r.evidence.value, 1).Ok?
    ensures E.FallbackChain(E.Normalize(r.evidence.value, 1).value, 1) == Ok(chain)
    ensures forall i :: 0 <= i < |r.nodes| && r.nodes[i].node.depth == Some(2) ==> r.nodes[i].hops == Some(chain)
  {
    assert ParentDepth(Bare(r.nodes), r.ownerDepth) == Ok(1);
    chain := E.FallbackChain(E.Normalize(r.evidence.value, 1).value, 1).value;
    HopsAre(r.nodes, chain);
  }

  /** Nor under a change of the chain some depth-2 node carries. */
  lemma ChangedChainIsRefused(reg: Registry, affinities: set<string>, recipe: Recipe, r: Route, s: Route, i: nat)
    requires r.tier !in {Direct, Quick} && ValidGroups(HeldAgainst(recipe, r).groups, r.tier)
    requires Verify(reg, affinities, recipe, r) == None
    requires s == r.(nodes := s.nodes) && i < |r.nodes| == |s.nodes| && r.nodes[i].node.depth == s.nodes[i].node.depth == Some(2)
    requires r.nodes[i].hops != s.nodes[i].hops
    ensures Verify(reg, affinities, recipe, s) != None
  {
    if Verify(reg, affinities, recipe, s) == None {
      var chain := AcceptedChain(reg, affinities, recipe, r);
      var again := AcceptedChain(reg, affinities, recipe, s);
    }
  }

  lemma AcceptedChain(reg: Registry, affinities: set<string>, recipe: Recipe, r: Route) returns (chain: seq<E.Hop>)
    requires r.tier !in {Direct, Quick} && ValidGroups(HeldAgainst(recipe, r).groups, r.tier) && Verify(reg, affinities, recipe, r) == None
    ensures r.evidence.Some? && E.Normalize(r.evidence.value, 1).Ok?
    ensures E.FallbackChain(E.Normalize(r.evidence.value, 1).value, 1) == Ok(chain)
    ensures forall i :: 0 <= i < |r.nodes| && r.nodes[i].node.depth == Some(2) ==> r.nodes[i].hops == Some(chain)
  {
    VerifyPassed(reg, affinities, recipe, r);
    GraphPassed(reg, affinities, r);
    ShapePassed(reg, r);
    chain := StagedChain(r);
  }
}
