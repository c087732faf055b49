/** The tracked-workflow contract: which nodes end a route and how every other node continues. */
module WorkflowContract {
  import opened Prelude
  import opened Graph
  import opened RouteNodes
  import opened Expansion
  import opened ExpansionForm
  import opened ExpansionMeaning
  import opened ExpansionTheorems

  predicate HasDependent(nodes: seq<Node>, id: Id) {
    exists i :: 0 <= i < |nodes| && id in nodes[i].deps
  }

  /* ---- What the recipe validator demands of a node ---- */

  /** A sink ends the workflow under its own completion gate and is no detached run; any other node
      names its continuation, and a detached run is supervised. */
  predicate Stands(n: Node, sink: bool) {
    if sink then
      n.continuation.None? && n.terminal == Some(true) && n.terminalGate == Some(n.gate) && n.kind != ResourceRunner
    else
      && n.terminal.None? && n.terminalGate.None? && n.continuation.Some?
      && (n.kind == ResourceRunner ==> n.continuation.value == Supervised)
  }

  predicate AllStand(nodes: seq<Node>) {
    forall i :: 0 <= i < |nodes| ==> Stands(nodes[i], !HasDependent(nodes, nodes[i].id))
  }

  ghost predicate ValidatedGraph(nodes: seq<Node>) {
    && nodes != [] && UniqueIds(nodes) && KnownDeps(nodes) && Acyclic(DepGraph(nodes)) && AllStand(nodes)
    && forall i :: 0 <= i < |nodes| ==> nodes[i].gate != ""
  }

  method CollectDependents(nodes: seq<Node>) returns (dependents: set<Id>)
    ensures forall id :: id in dependents <==> HasDependent(nodes, id)
  {
    dependents := {};
    var i := 0;
    while i < |nodes|
      invariant i <= |nodes|
      invariant forall id :: id in dependents <==> exists k :: 0 <= k < i && id in nodes[k].deps
    {
      dependents := dependents + set d | d in nodes[i].deps;
      i := i + 1;
    }
  }

  /* ---- Human gates ---- */

  predicate DependsOn(nodes: seq<Node>, dependent: Id, id: Id) {
    exists k :: 0 <= k < |nodes| && nodes[k].id == dependent && id in nodes[k].deps
  }

  /** The entry gates in front of the direct dependents of a node. */
  function GatesBehind(nodes: seq<Node>, bindings: seq<Binding>, id: Id): set<string> {
    set i | 0 <= i < |bindings| && bindings[i].entry && DependsOn(nodes, bindings[i].node, id) :: bindings[i].gate
  }

  predicate Space(c: char) {
    var n := c as int;
    9 <= n <= 13 || 28 <= n <= 32 || 0x2000 <= n <= 0x200A || n in {0x85, 0xA0, 0x1680, 0x2028, 0x2029, 0x202F, 0x205F, 0x3000}
  }

  predicate Blank(name: string) {
    forall i :: 0 <= i < |name| ==> Space(name[i])
  }

  /** A node waits at a human gate exactly if one of its dependents has one, and names such a gate. */
  predicate Waits(n: Node, behind: set<string>) {
    n.continuation.Some? ==>
      match n.continuation.value
      case HumanGate(gate) => gate in behind
      case Monitor(name) => behind == {} && !Blank(name)
      case _ => behind == {}
  }

  predicate BindingFine(nodes: seq<Node>, gates: seq<string>, b: Binding) {
    b.gate in gates && HasId(nodes, b.node) && (!b.entry ==> !HasDependent(nodes, b.node))
  }

  predicate NoneTwice(gates: seq<string>) {
    forall i, j :: 0 <= i < j < |gates| ==> gates[i] != gates[j]
  }

  /** Every declared gate is bound to one node, no node has two entry gates, and a gate at the end
      stands behind a sink. */
  predicate BindingsFine(nodes: seq<Node>, bindings: seq<Binding>, gates: seq<string>) {
    && NoneTwice(gates)
    && (forall i :: 0 <= i < |bindings| ==> BindingFine(nodes, gates, bindings[i]))
    && (forall i, j :: 0 <= i < j < |bindings| ==> bindings[i].gate != bindings[j].gate)
    && (forall i, j :: 0 <= i < j < |bindings| && bindings[i].entry && bindings[j].entry ==> bindings[i].node != bindings[j].node)
    && (forall g :: g in gates ==> exists i :: 0 <= i < |bindings| && bindings[i].gate == g)
  }

  predicate ContinuationsFine(nodes: seq<Node>, bindings: seq<Binding>, gates: seq<string>) {
    && BindingsFine(nodes, bindings, gates) && AllStand(nodes)
    && forall i :: 0 <= i < |nodes| ==> Waits(nodes[i], GatesBehind(nodes, bindings, nodes[i].id))
  }

  /* ---- The check as it runs ---- */

  method CheckDeclared(gates: seq<string>) returns (ok: bool)
    ensures ok <==> NoneTwice(gates)
  {
    var seen: set<string> := {};
    var i := 0;
    while i < |gates|
      invariant i <= |gates| && seen == set k | 0 <= k < i :: gates[k]
      invariant forall j, k :: 0 <= j < k < i ==> gates[j] != gates[k]
    {
      if gates[i] in seen { return false; }
      seen := seen + {gates[i]};
      i := i + 1;
    }
    ok := true;
  }

  predicate AllBound(gates: seq<string>, bound: set<string>) {
    forall i :: 0 <= i < |gates| ==> gates[i] in bound
  }

  ghost predicate GatesMet(bindings: seq<Binding>, n: nat, bound: set<string>)
    requires n <= |bindings|
  {
    && (forall i, j :: 0 <= i < j < n ==> bindings[i].gate != bindings[j].gate)
    && (forall g :: g in bound <==> exists i :: 0 <= i < n && bindings[i].gate == g)
  }

  ghost predicate EntriesMet(bindings: seq<Binding>, n: nat, gateOf: map<Id, string>)
    requires n <= |bindings|
  {
    && (forall i, j :: 0 <= i < j < n && bindings[i].entry && bindings[j].entry ==> bindings[i].node != bindings[j].node)
    && (forall id :: id in gateOf <==> exists i :: 0 <= i < n && bindings[i].entry && bindings[i].node == id)
    && (forall i :: 0 <= i < n && bindings[i].entry ==> bindings[i].node in gateOf && gateOf[bindings[i].node] == bindings[i].gate)
  }

  /** What the loop over the bindings has established after `n` of them. */
  ghost predicate BoundSoFar(nodes: seq<Node>, bindings: seq<Binding>, gates: seq<string>, n: nat, bound: set<string>, gateOf: map<Id, string>)
    requires n <= |bindings|
  {
    && (forall i :: 0 <= i < n ==> bindings[i].gate in gates && HasId(nodes, bindings[i].node))
    && GatesMet(bindings, n, bound) && EntriesMet(bindings, n, gateOf)
  }

  predicate NextFits(nodes: seq<Node>, gates: seq<string>, b: Binding, bound: set<string>, gateOf: map<Id, string>) {
    b.gate in gates && HasId(nodes, b.node) && b.gate !in bound && (b.entry ==> b.node !in gateOf)
  }

  lemma GatesMore(bindings: seq<Binding>, n: nat, bound: set<string>)
    requires n < |bindings| && GatesMet(bindings, n, bound) && bindings[n].gate !in bound
    ensures GatesMet(bindings, n + 1, bound + {bindings[n].gate})
  {
    var more := bound + {bindings[n].gate};
    forall g ensures g in more <==> exists i :: 0 <= i < n + 1 && bindings[i].gate == g {
      if g in bound { var i :| 0 <= i < n && bindings[i].gate == g; }
    }
  }

  lemma EntriesMore(bindings: seq<Binding>, n: nat, gateOf: map<Id, string>)
    requires n < |bindings| && EntriesMet(bindings, n, gateOf) && (bindings[n].entry ==> bindings[n].node !in gateOf)
    ensures EntriesMet(bindings, n + 1, if bindings[n].entry then gateOf[bindings[n].node := bindings[n].gate] else gateOf)
  {
    var now := if bindings[n].entry then gateOf[bindings[n].node := bindings[n].gate] else gateOf;
    forall id ensures id in now <==> exists i :: 0 <= i < n + 1 && bindings[i].entry && bindings[i].node == id {
      if id in gateOf { var i :| 0 <= i < n && bindings[i].entry && bindings[i].node == id; }
    }
  }

  lemma BoundMore(nodes: seq<Node>, bindings: seq<Binding>, gates: seq<string>, n: nat, bound: set<string>, gateOf: map<Id, string>)
    requires n < |bindings| && BoundSoFar(nodes, bindings, gates, n, bound, gateOf) && NextFits(nodes, gates, bindings[n], bound, gateOf)
    ensures var b := bindings[n];
            BoundSoFar(nodes, bindings, gates, n + 1, bound + {b.gate}, if b.entry then gateOf[b.node := b.gate] else gateOf)
  {
    GatesMore(bindings, n, bound);
    EntriesMore(bindings, n, gateOf);
  }

  lemma BindingRefused(nodes: seq<Node>, bindings: seq<Binding>, gates: seq<string>, n: nat, bound: set<string>, gateOf: map<Id, string>)
    requires n < |bindings| && BoundSoFar(nodes, bindings, gates, n, bound, gateOf) && !NextFits(nodes, gates, bindings[n], bound, gateOf)
    ensures !BindingsFine(nodes, bindings, gates)
  {
    var b := bindings[n];
    if b.gate in bound {
      var i :| 0 <= i < n && bindings[i].gate == b.gate;
    } else if b.entry && b.node in gateOf {
      var i :| 0 <= i < n && bindings[i].entry && bindings[i].node == b.node;
    } else {
      assert !BindingFine(nodes, gates, b);
    }
  }

  lemma GateUnbound(nodes: seq<Node>, bindings: seq<Binding>, gates: seq<string>, bound: set<string>)
    requires GatesMet(bindings, |bindings|, bound) && !AllBound(gates, bound)
    ensures !BindingsFine(nodes, bindings, gates)
  {
    var k :| 0 <= k < |gates| && gates[k] !in bound;
    assert gates[k] in gates;
  }

  /** The first loop: every binding by itself, then that every declared gate was met. */
  method CheckBindings(nodes: seq<Node>, bindings: seq<Binding>, gates: seq<string>) returns (r: Option<map<Id, string>>)
    requires NoneTwice(gates)
    ensures r.Some? ==> exists bound :: BoundSoFar(nodes, bindings, gates, |bindings|, bound, r.value) && AllBound(gates, bound)
    ensures r.None? ==> !BindingsFine(nodes, bindings, gates)
  {
    var bound: set<string> := {};
    var gateOf: map<Id, string> := map[];
    var i := 0;
    while i < |bindings|
      invariant i <= |bindings| && BoundSoFar(nodes, bindings, gates, i, bound, gateOf)
    {
      var b := bindings[i];
      if !NextFits(nodes, gates, b, bound, gateOf) {
        BindingRefused(nodes, bindings, gates, i, bound, gateOf);
        return None;
      }
      BoundMore(nodes, bindings, gates, i, bound, gateOf);
      bound := bound + {b.gate};
      if b.entry { gateOf := gateOf[b.node := b.gate]; }
      i := i + 1;
    }
    if !AllBound(gates, bound) {
      GateUnbound(nodes, bindings, gates, bound);
      return None;
    }
    r := Some(gateOf);
  }

  lemma GatesBehindFound(nodes: seq<Node>, bindings: seq<Binding>, gates: seq<string>, bound: set<string>, gateOf: map<Id, string>, id: Id)
    requires BoundSoFar(nodes, bindings, gates, |bindings|, bound, gateOf)
    ensures GatesBehind(nodes, bindings, id) == set d | d in gateOf && DependsOn(nodes, d, id) :: gateOf[d]
  {
    var found := set d | d in gateOf && DependsOn(nodes, d, id) :: gateOf[d];
    forall g | g in GatesBehind(nodes, bindings, id) ensures g in found {
      var i :| 0 <= i < |bindings| && bindings[i].entry && DependsOn(nodes, bindings[i].node, id) && bindings[i].gate == g;
      assert bindings[i].node in gateOf;
    }
    forall g | g in found ensures g in GatesBehind(nodes, bindings, id) {
      var d :| d in gateOf && DependsOn(nodes, d, id) && gateOf[d] == g;
      var i :| 0 <= i < |bindings| && bindings[i].entry && bindings[i].node == d;
    }
  }

  predicate GoesOn(nodes: seq<Node>, bindings: seq<Binding>, n: Node) {
    Stands(n, !HasDependent(nodes, n.id)) && Waits(n, GatesBehind(nodes, bindings, n.id))
  }

  /** The second loop: every node under the entry gates found. */
  method CheckNodes(nodes: seq<Node>, bindings: seq<Binding>, gates: seq<string>, dependents: set<Id>, gateOf: map<Id, string>, ghost bound: set<string>)
    returns (ok: bool)
    requires BoundSoFar(nodes, bindings, gates, |bindings|, bound, gateOf)
    requires forall id :: id in dependents <==> HasDependent(nodes, id)
    ensures ok <==> forall i :: 0 <= i < |nodes| ==> GoesOn(nodes, bindings, nodes[i])
  {
    var i := 0;
    while i < |nodes|
      invariant i <= |nodes| && forall k :: 0 <= k < i ==> GoesOn(nodes, bindings, nodes[k])
    {
      var behind := set d | d in gateOf && DependsOn(nodes, d, nodes[i].id) :: gateOf[d];
      GatesBehindFound(nodes, bindings, gates, bound, gateOf, nodes[i].id);
      if !Stands(nodes[i], nodes[i].id !in dependents) || !Waits(nodes[i], behind) { return false; }
      i := i + 1;
    }
    ok := true;
  }

  predicate EndFine(nodes: seq<Node>, b: Binding) {
    b.entry || !HasDependent(nodes, b.node)
  }

  /** The third loop: gates at the end stand behind sinks. */
  method CheckEnds(nodes: seq<Node>, bindings: seq<Binding>, dependents: set<Id>) returns (ok: bool)
    requires forall id :: id in dependents <==> HasDependent(nodes, id)
    ensures ok <==> forall i :: 0 <= i < |bindings| ==> EndFine(nodes, bindings[i])
  {
    var i := 0;
    while i < |bindings|
      invariant i <= |bindings| && forall k :: 0 <= k < i ==> EndFine(nodes, bindings[k])
    {
      if !bindings[i].entry && bindings[i].node in dependents { return false; }
      i := i + 1;
    }
    ok := true;
  }

  lemma BindingsAre(nodes: seq<Node>, bindings: seq<Binding>, gates: seq<string>, bound: set<string>, gateOf: map<Id, string>)
    requires BoundSoFar(nodes, bindings, gates, |bindings|, bound, gateOf) && AllBound(gates, bound) && NoneTwice(gates)
    ensures BindingsFine(nodes, bindings, gates) <==> forall i :: 0 <= i < |bindings| ==> EndFine(nodes, bindings[i])
  {
    if forall i :: 0 <= i < |bindings| ==> EndFine(nodes, bindings[i]) {
      forall i | 0 <= i < |bindings| ensures BindingFine(nodes, gates, bindings[i]) { assert EndFine(nodes, bindings[i]); }
      forall g | g in gates ensures exists i :: 0 <= i < |bindings| && bindings[i].gate == g {
        var k :| 0 <= k < |gates| && gates[k] == g;
        assert gates[k] in bound;
      }
    }
    if BindingsFine(nodes, bindings, gates) {
      forall i | 0 <= i < |bindings| ensures EndFine(nodes, bindings[i]) { assert BindingFine(nodes, gates, bindings[i]); }
    }
  }

  lemma ContinuationsAre(nodes: seq<Node>, bindings: seq<Binding>, gates: seq<string>)
    ensures ContinuationsFine(nodes, bindings, gates) <==>
            BindingsFine(nodes, bindings, gates) && forall i :: 0 <= i < |nodes| ==> GoesOn(nodes, bindings, nodes[i])
  {
    if BindingsFine(nodes, bindings, gates) && forall i :: 0 <= i < |nodes| ==> GoesOn(nodes, bindings, nodes[i]) {
      forall i | 0 <= i < |nodes| ensures Stands(nodes[i], !HasDependent(nodes, nodes[i].id)) && Waits(nodes[i], GatesBehind(nodes, bindings, nodes[i].id)) {
        assert GoesOn(nodes, bindings, nodes[i]);
      }
    }
  }

  /** Exactly the recipes whose every node either ends the workflow or names how it goes on. */
  method ValidateContinuations(nodes: seq<Node>, bindings: seq<Binding>, gates: seq<string>) returns (ok: bool)
    ensures ok <==> ContinuationsFine(nodes, bindings, gates)
  {
    ContinuationsAre(nodes, bindings, gates);
    ok := CheckDeclared(gates);
    if !ok { return; }
    var entry := CheckBindings(nodes, bindings, gates);
    if entry.None? { return false; }
    ghost var bound :| BoundSoFar(nodes, bindings, gates, |bindings|, bound, entry.value) && AllBound(gates, bound);
    BindingsAre(nodes, bindings, gates, bound, entry.value);
    var dependents := CollectDependents(nodes);
    ok := CheckNodes(nodes, bindings, gates, dependents, entry.value, bound);
    if ok { ok := CheckEnds(nodes, bindings, dependents); }
  }

  /* ---- Sealing ---- */

  datatype Contract = Contract(terminals: set<Id>, continuations: map<Id, ContinuationKind>)

  datatype ContractError = LacksTerminalGate(node: Id) | EndsOnDetachedRun(node: Id) | NoContinuation(node: Id) | NoTerminal

  /** What sealing asks of a node. */
  predicate Seals(n: Node, sink: bool) {
    if sink then n.terminal == Some(true) && n.terminalGate.Some? && n.terminalGate.value != "" && n.kind != ResourceRunner
    else n.continuation.Some?
  }

  function SealError(n: Node, sink: bool): ContractError {
    if !sink then NoContinuation(n.id)
    else if n.terminal == Some(true) && n.terminalGate.Some? && n.terminalGate.value != "" then EndsOnDetachedRun(n.id)
    else LacksTerminalGate(n.id)
  }

  predicate IsSink(nodes: seq<Node>, id: Id) {
    HasId(nodes, id) && !HasDependent(nodes, id)
  }

  predicate AllSeal(nodes: seq<Node>) {
    forall i :: 0 <= i < |nodes| ==> Seals(nodes[i], !HasDependent(nodes, nodes[i].id))
  }

  /** The sealed contract lists exactly the sinks as terminals and a continuation for every other node. */
  predicate ContractFits(nodes: seq<Node>, c: Contract) {
    && c.terminals != {}
    && (forall id :: id in c.terminals ==> IsSink(nodes, id))
    && (forall i :: 0 <= i < |nodes| ==> if HasDependent(nodes, nodes[i].id) then nodes[i].id in c.continuations else nodes[i].id in c.terminals)
    && (forall id :: id in c.continuations ==> HasId(nodes, id) && HasDependent(nodes, id))
    && (forall i :: 0 <= i < |nodes| && nodes[i].id in c.continuations && LastOfName(nodes, i) ==>
          NextKind(nodes[i]) == Some(c.continuations[nodes[i].id]))
  }

  /** No later node has the name of the i-th; for one name a later entry replaces the earlier ones. */
  predicate LastOfName(nodes: seq<Node>, i: nat)
    requires i < |nodes|
  {
    forall j :: i < j < |nodes| ==> nodes[j].id != nodes[i].id
  }

  /** The i-th node is the last of the first `n` with the name, has dependents, and continues as `kind`. */
  predicate EntersAs(nodes: seq<Node>, i: nat, n: nat, id: Id, kind: ContinuationKind)
    requires i < n <= |nodes|
  {
    nodes[i].id == id && HasDependent(nodes, id) && NextKind(nodes[i]) == Some(kind) && forall j :: i < j < n ==> nodes[j].id != id
  }

  predicate Entered(nodes: seq<Node>, n: nat, id: Id, kind: ContinuationKind)
    requires n <= |nodes|
  {
    exists i :: 0 <= i < n && EntersAs(nodes, i, n, id, kind)
  }

  predicate EndsAt(nodes: seq<Node>, n: nat, id: Id)
    requires n <= |nodes|
  {
    exists i :: 0 <= i < n && nodes[i].id == id && !HasDependent(nodes, id)
  }

  predicate TerminalsMet(nodes: seq<Node>, n: nat, terminals: set<Id>)
    requires n <= |nodes|
  {
    && (forall id :: id in terminals ==> EndsAt(nodes, n, id))
    && (forall i :: 0 <= i < n && !HasDependent(nodes, nodes[i].id) ==> nodes[i].id in terminals)
  }

  predicate ContinuationsMet(nodes: seq<Node>, n: nat, continuations: map<Id, ContinuationKind>)
    requires n <= |nodes|
  {
    && (forall id :: id in continuations ==> Entered(nodes, n, id, continuations[id]))
    && (forall i :: 0 <= i < n && HasDependent(nodes, nodes[i].id) ==> nodes[i].id in continuations)
  }

  /** Contracts in the making: the first `n` nodes have been looked at. */
  predicate Partial(nodes: seq<Node>, n: nat, c: Contract)
    requires n <= |nodes|
  {
    TerminalsMet(nodes, n, c.terminals) && ContinuationsMet(nodes, n, c.continuations)
  }

  lemma TerminalsMore(nodes: seq<Node>, n: nat, terminals: set<Id>)
    requires n < |nodes| && TerminalsMet(nodes, n, terminals)
    ensures TerminalsMet(nodes, n + 1, if HasDependent(nodes, nodes[n].id) then terminals else terminals + {nodes[n].id})
  {
    forall id | id in terminals ensures EndsAt(nodes, n + 1, id) {
      var i :| 0 <= i < n && nodes[i].id == id && !HasDependent(nodes, id);
    }
  }

  lemma StaysEntered(nodes: seq<Node>, n: nat, id: Id, kind: ContinuationKind)
    requires n < |nodes| && Entered(nodes, n, id, kind) && nodes[n].id != id
    ensures Entered(nodes, n + 1, id, kind)
  {
    var i :| 0 <= i < n && EntersAs(nodes, i, n, id, kind);
    assert EntersAs(nodes, i, n + 1, id, kind);
  }

  lemma SameContinuations(nodes: seq<Node>, n: nat, continuations: map<Id, ContinuationKind>)
    requires n < |nodes| && ContinuationsMet(nodes, n, continuations) && !HasDependent(nodes, nodes[n].id)
    ensures ContinuationsMet(nodes, n + 1, continuations)
  {
    forall id | id in continuations ensures Entered(nodes, n + 1, id, continuations[id]) {
      assert Entered(nodes, n, id, continuations[id]);
      assert HasDependent(nodes, id);
      StaysEntered(nodes, n, id, continuations[id]);
    }
  }

  lemma ContinuationsMore(nodes: seq<Node>, n: nat, continuations: map<Id, ContinuationKind>)
    requires n < |nodes| && ContinuationsMet(nodes, n, continuations) && HasDependent(nodes, nodes[n].id) && nodes[n].continuation.Some?
    ensures ContinuationsMet(nodes, n + 1, continuations[nodes[n].id := KindOf(nodes[n].continuation.value)])
  {
    var more := continuations[nodes[n].id := KindOf(nodes[n].continuation.value)];
    assert EntersAs(nodes, n, n + 1, nodes[n].id, more[nodes[n].id]);
    forall id | id in more ensures Entered(nodes, n + 1, id, more[id]) {
      if id != nodes[n].id { StaysEntered(nodes, n, id, continuations[id]); }
    }
  }

  lemma PartialStep(nodes: seq<Node>, n: nat, c: Contract, d: Contract)
    requires n < |nodes| && Partial(nodes, n, c)
    requires d == if HasDependent(nodes, nodes[n].id) && nodes[n].continuation.Some?
                  then c.(continuations := c.continuations[nodes[n].id := KindOf(nodes[n].continuation.value)])
                  else c.(terminals := c.terminals + {nodes[n].id})
    requires HasDependent(nodes, nodes[n].id) ==> nodes[n].continuation.Some?
    ensures Partial(nodes, n + 1, d)
  {
    TerminalsMore(nodes, n, c.terminals);
    if HasDependent(nodes, nodes[n].id) { ContinuationsMore(nodes, n, c.continuations); } else { SameContinuations(nodes, n, c.continuations); }
  }

  lemma EntryIsLast(nodes: seq<Node>, i: nat, kind: ContinuationKind)
    requires i < |nodes| && Entered(nodes, |nodes|, nodes[i].id, kind) && LastOfName(nodes, i)
    ensures NextKind(nodes[i]) == Some(kind)
  {
    var k :| 0 <= k < |nodes| && EntersAs(nodes, k, |nodes|, nodes[i].id, kind);
    assert k >= i && k <= i;
  }

  lemma TerminalsFit(nodes: seq<Node>, c: Contract)
    requires TerminalsMet(nodes, |nodes|, c.terminals)
    ensures forall id :: id in c.terminals ==> IsSink(nodes, id)
  {
    forall id | id in c.terminals ensures IsSink(nodes, id) { assert EndsAt(nodes, |nodes|, id); }
  }

  lemma ContinuationsFit(nodes: seq<Node>, c: Contract)
    requires ContinuationsMet(nodes, |nodes|, c.continuations)
    ensures forall id :: id in c.continuations ==> HasId(nodes, id) && HasDependent(nodes, id)
    ensures forall i :: 0 <= i < |nodes| && nodes[i].id in c.continuations && LastOfName(nodes, i) ==>
              NextKind(nodes[i]) == Some(c.continuations[nodes[i].id])
  {
    forall id | id in c.continuations ensures HasId(nodes, id) && HasDependent(nodes, id) {
      assert Entered(nodes, |nodes|, id, c.continuations[id]);
    }
    forall i | 0 <= i < |nodes| && nodes[i].id in c.continuations && LastOfName(nodes, i)
      ensures NextKind(nodes[i]) == Some(c.continuations[nodes[i].id])
    {
      EntryIsLast(nodes, i, c.continuations[nodes[i].id]);
    }
  }

  lemma PartialFits(nodes: seq<Node>, c: Contract)
    requires Partial(nodes, |nodes|, c) && c.terminals != {}
    ensures ContractFits(nodes, c)
  {
    TerminalsFit(nodes, c);
    ContinuationsFit(nodes, c);
  }

  /** The error names a node that cannot be sealed, and why. */
  predicate ErrorFits(nodes: seq<Node>, e: ContractError) {
    exists i :: 0 <= i < |nodes| && !Seals(nodes[i], !HasDependent(nodes, nodes[i].id))
                && e == SealError(nodes[i], !HasDependent(nodes, nodes[i].id))
  }

  lemma CannotSeal(nodes: seq<Node>, i: nat)
    requires i < |nodes| && !Seals(nodes[i], !HasDependent(nodes, nodes[i].id))
    ensures !AllSeal(nodes) && ErrorFits(nodes, SealError(nodes[i], !HasDependent(nodes, nodes[i].id)))
  {
  }

  predicate SomeSink(nodes: seq<Node>) {
    exists i :: 0 <= i < |nodes| && !HasDependent(nodes, nodes[i].id)
  }

  predicate SealSoFar(nodes: seq<Node>, n: nat)
    requires n <= |nodes|
  {
    forall k :: 0 <= k < n ==> Seals(nodes[k], !HasDependent(nodes, nodes[k].id))
  }

  lemma NoSinkLeft(nodes: seq<Node>, c: Contract)
    requires Partial(nodes, |nodes|, c)
    ensures c.terminals != {} <==> SomeSink(nodes)
  {
    if c.terminals != {} {
      var t :| t in c.terminals;
      var i :| 0 <= i < |nodes| && nodes[i].id == t && !HasDependent(nodes, t);
    }
  }

  lemma NothingYet(nodes: seq<Node>)
    ensures Partial(nodes, 0, Contract({}, map[])) && SealSoFar(nodes, 0)
  {
  }

  lemma SealMore(nodes: seq<Node>, n: nat)
    requires n < |nodes| && SealSoFar(nodes, n) && Seals(nodes[n], !HasDependent(nodes, nodes[n].id))
    ensures SealSoFar(nodes, n + 1)
  {
  }

  /** What the loop has when it is through. */
  lemma AllThrough(nodes: seq<Node>, c: Contract)
    requires Partial(nodes, |nodes|, c) && SealSoFar(nodes, |nodes|)
    ensures AllSeal(nodes) && (c.terminals != {} <==> SomeSink(nodes)) && (c.terminals != {} ==> ContractFits(nodes, c))
  {
    NoSinkLeft(nodes, c);
    if c.terminals != {} { PartialFits(nodes, c); }
  }

  /** One node of the loop: enters the terminals, or the continuations, or cannot be sealed. */
  method SealNode(nodes: seq<Node>, i: nat, dependents: set<Id>, c: Contract) returns (r: Result<Contract, ContractError>)
    requires i < |nodes| && Partial(nodes, i, c) && forall id :: id in dependents <==> HasDependent(nodes, id)
    ensures r.Ok? <==> Seals(nodes[i], !HasDependent(nodes, nodes[i].id))
    ensures r.Ok? ==> Partial(nodes, i + 1, r.value)
    ensures r.Err? ==> r.error == SealError(nodes[i], !HasDependent(nodes, nodes[i].id))
  {
    var n := nodes[i];
    var d := c;
    if n.id !in dependents {
      if n.terminal != Some(true) || n.terminalGate.None? || n.terminalGate.value == "" { return Err(LacksTerminalGate(n.id)); }
      if n.kind == ResourceRunner { return Err(EndsOnDetachedRun(n.id)); }
      d := c.(terminals := c.terminals + {n.id});
    } else {
      if n.continuation.None? { return Err(NoContinuation(n.id)); }
      d := c.(continuations := c.continuations[n.id := KindOf(n.continuation.value)]);
    }
    PartialStep(nodes, i, c, d);
    r := Ok(d);
  }

  method WorkflowContract(nodes: seq<Node>) returns (r: Result<Contract, ContractError>)
    ensures r.Ok? <==> AllSeal(nodes) && SomeSink(nodes)
    ensures r.Ok? ==> ContractFits(nodes, r.value)
    ensures r.Err? && r.error != NoTerminal ==> ErrorFits(nodes, r.error)
  {
    var dependents := CollectDependents(nodes);
    var c := Contract({}, map[]);
    var i := 0;
    NothingYet(nodes);
    while i < |nodes|
      invariant i <= |nodes| && Partial(nodes, i, c) && SealSoFar(nodes, i)
    {
      var step := SealNode(nodes, i, dependents, c);
      if step.Err? {
        CannotSeal(nodes, i);
        return Err(step.error);
      }
      SealMore(nodes, i);
      c := step.value;
      i := i + 1;
    }
    AllThrough(nodes, c);
    r := if c.terminals == {} then Err(NoTerminal) else Ok(c);
  }

  /* ---- Every acyclic graph ends somewhere ---- */

  ghost function AboveSet<T(!new)>(g: Graph<T>, a: T): set<T> {
    set x | x in g && Reaches(g, x, a)
  }

  /** Going from dependent to dependent ends at a node nothing depends on. */
  lemma {:induction false} LeadsToSink<T(!new)>(g: Graph<T>, a: T) returns (t: T)
    requires Closed(g) && Acyclic(g) && a in g
    ensures t in g && (t == a || Reaches(g, t, a)) && forall x :: !Edge(g, x, t)
    decreases |AboveSet(g, a)|
  {
    if y :| Edge(g, y, a) {
      EdgeReaches(g, y, a);
      forall x | x in AboveSet(g, y) ensures x in AboveSet(g, a) { Transitive(g, x, y, a); }
      assert y in AboveSet(g, a) && y !in AboveSet(g, y);
      SubsetSize(AboveSet(g, y), AboveSet(g, a) - {y});
      t := LeadsToSink(g, y);
      if t != y { Transitive(g, t, y, a); }
    } else {
      t := a;
    }
  }

  lemma DependentIsEdge(nodes: seq<Node>, id: Id)
    requires UniqueIds(nodes)
    ensures HasDependent(nodes, id) <==> exists y :: Edge(DepGraph(nodes), y, id)
  {
    if HasDependent(nodes, id) {
      var i :| 0 <= i < |nodes| && id in nodes[i].deps;
      FindUnique(nodes, nodes[i]);
      assert Edge(DepGraph(nodes), nodes[i].id, id);
    }
    if y :| Edge(DepGraph(nodes), y, id) {
      var n := Find(nodes, y);
      var i :| 0 <= i < |nodes| && nodes[i] == n;
    }
  }

  /* ---- The contract of an expanded recipe ---- */

  lemma SinksCollapse(ns: seq<Node>, gs: seq<Real>, x: Id, a: Id, i: nat)
    requires Expandable(ns, gs) && IsLegOf(ns, gs, x, a, i)
    ensures HasDependent(Rows(ns, gs, ns), x) <==> HasDependent(ns, a)
  {
    var final := Rows(ns, gs, ns);
    FindLeg(ns, gs, x, a, i);
    OriginIs(ns, gs, x, a, i);
    DependentIsEdge(final, x);
    DependentIsEdge(ns, a);
    if y :| Edge(DepGraph(final), y, x) {
      LegEdge(ns, gs, y, x);
      assert Edge(DepGraph(ns), Origin(ns, gs, y), a);
    }
    if b :| Edge(DepGraph(ns), b, a) {
      NodeIsStoodFor(ns, gs, b);
      LegEdge(ns, gs, b, x);
      assert Edge(DepGraph(final), b, x);
    }
  }

  lemma LegStands(ns: seq<Node>, gs: seq<Real>, m: Node)
    requires Expandable(ns, gs) && AllStand(ns) && m in Rows(ns, gs, ns)
    requires forall i :: 0 <= i < |ns| ==> ns[i].gate != ""
    ensures Stands(m, !HasDependent(Rows(ns, gs, ns), m.id)) && m.gate != ""
  {
    MemberIsFinal(ns, gs, m);
    var k, i :| 0 <= k < |ns| && 0 <= i < Width(gs, ns[k].id) && m == Final(ns, gs, ns[k], i);
    FinalKeeps(ns, gs, ns[k], i);
    FindUnique(ns, ns[k]);
    assert IsLegOf(ns, gs, m.id, ns[k].id, i);
    SinksCollapse(ns, gs, m.id, ns[k].id, i);
  }

  lemma RowsStand(ns: seq<Node>, gs: seq<Real>)
    requires Expandable(ns, gs) && AllStand(ns) && forall i :: 0 <= i < |ns| ==> ns[i].gate != ""
    ensures AllStand(Rows(ns, gs, ns)) && AllSeal(Rows(ns, gs, ns))
  {
    var final := Rows(ns, gs, ns);
    forall i | 0 <= i < |final| ensures Stands(final[i], !HasDependent(final, final[i].id)) && final[i].gate != "" {
      LegStands(ns, gs, final[i]);
    }
  }

  lemma RowsNotEmpty(ns: seq<Node>, gs: seq<Real>)
    requires Expandable(ns, gs) && ns != []
    ensures Rows(ns, gs, ns) != [] && UniqueIds(Rows(ns, gs, ns))
  {
    assert forall k :: 0 <= k < |ns| ==> ns[k] in ns;
    FinalIdsUnique(ns, gs, ns);
    FindUnique(ns, ns[0]);
    FirstLegIsAnchor(ns, gs, ns[0].id);
    FindLeg(ns, gs, ns[0].id, ns[0].id, 0);
  }

  /** Expansion of a validated recipe is a validated graph again. */
  lemma ExpandedStands(ns: seq<Node>, groups: seq<Group>, tier: Tier)
    requires Sound(ns, groups, tier) && ValidatedGraph(ns)
    ensures var final := Expand(ns, groups, tier);
            && final != [] && UniqueIds(final) && AllStand(final) && AllSeal(final)
            && Closed(DepGraph(final)) && Acyclic(DepGraph(final))
  {
    ExpandIsClosedForm(ns, groups, tier);
    ExpansionPreservesAcyclicity(ns, groups, tier);
    RowsNotEmpty(ns, Realized(groups, tier));
    RowsStand(ns, Realized(groups, tier));
  }

  lemma DependsOnFound(nodes: seq<Node>, b: Id, x: Id)
    requires UniqueIds(nodes) && HasId(nodes, b)
    ensures DependsOn(nodes, b, x) <==> x in Find(nodes, b).deps
  {
    if DependsOn(nodes, b, x) {
      var k :| 0 <= k < |nodes| && nodes[k].id == b && x in nodes[k].deps;
      FindUnique(nodes, nodes[k]);
    }
    var n := Find(nodes, b);
    var k :| 0 <= k < |nodes| && nodes[k] == n;
  }

  /** A node of the recipe depends on all legs of what it depended on. */
  lemma DependsOnLeg(ns: seq<Node>, gs: seq<Real>, b: Id, x: Id, a: Id, i: nat)
    requires Expandable(ns, gs) && HasId(ns, b) && IsLegOf(ns, gs, x, a, i)
    ensures DependsOn(Rows(ns, gs, ns), b, x) <==> DependsOn(ns, b, a)
  {
    FirstLegIsAnchor(ns, gs, b);
    FindLeg(ns, gs, b, b, 0);
    FinalKeeps(ns, gs, Find(ns, b), 0);
    LegEdges(ns, gs, Find(ns, b), x, a, i);
    DependsOnFound(Rows(ns, gs, ns), b, x);
    DependsOnFound(ns, b, a);
  }

  /** A leg has the entry gates of its node behind it. */
  lemma GatesBehindLeg(ns: seq<Node>, gs: seq<Real>, bindings: seq<Binding>, x: Id, a: Id, i: nat)
    requires Expandable(ns, gs) && IsLegOf(ns, gs, x, a, i) && forall k :: 0 <= k < |bindings| ==> HasId(ns, bindings[k].node)
    ensures GatesBehind(Rows(ns, gs, ns), bindings, x) == GatesBehind(ns, bindings, a)
  {
    forall k | 0 <= k < |bindings| ensures DependsOn(Rows(ns, gs, ns), bindings[k].node, x) <==> DependsOn(ns, bindings[k].node, a) {
      DependsOnLeg(ns, gs, bindings[k].node, x, a, i);
    }
  }

  lemma LegWaits(ns: seq<Node>, gs: seq<Real>, bindings: seq<Binding>, gates: seq<string>, m: Node)
    requires Expandable(ns, gs) && ContinuationsFine(ns, bindings, gates) && m in Rows(ns, gs, ns)
    ensures Waits(m, GatesBehind(Rows(ns, gs, ns), bindings, m.id))
  {
    MemberIsFinal(ns, gs, m);
    var k, i :| 0 <= k < |ns| && 0 <= i < Width(gs, ns[k].id) && m == Final(ns, gs, ns[k], i);
    FinalKeeps(ns, gs, ns[k], i);
    FindUnique(ns, ns[k]);
    assert forall j :: 0 <= j < |bindings| ==> BindingFine(ns, gates, bindings[j]);
    GatesBehindLeg(ns, gs, bindings, m.id, ns[k].id, i);
  }

  lemma RowsBindings(ns: seq<Node>, gs: seq<Real>, bindings: seq<Binding>, gates: seq<string>)
    requires Expandable(ns, gs) && BindingsFine(ns, bindings, gates)
    ensures BindingsFine(Rows(ns, gs, ns), bindings, gates)
  {
    forall j | 0 <= j < |bindings| ensures BindingFine(Rows(ns, gs, ns), gates, bindings[j]) {
      var b := bindings[j].node;
      assert BindingFine(ns, gates, bindings[j]);
      FirstLegIsAnchor(ns, gs, b);
      FindLeg(ns, gs, b, b, 0);
      SinksCollapse(ns, gs, b, b, 0);
    }
  }

  /** Expansion of a validated recipe passes the validator's rules on continuations, under the same
      human gates. */
  lemma ExpandedContinues(ns: seq<Node>, groups: seq<Group>, tier: Tier, bindings: seq<Binding>, gates: seq<string>)
    requires Sound(ns, groups, tier) && ValidatedGraph(ns) && ContinuationsFine(ns, bindings, gates)
    ensures ContinuationsFine(Expand(ns, groups, tier), bindings, gates)
  {
    var gs := Realized(groups, tier);
    ExpandIsClosedForm(ns, groups, tier);
    RowsBindings(ns, gs, bindings, gates);
    RowsStand(ns, gs);
    var final := Rows(ns, gs, ns);
    forall i | 0 <= i < |final| ensures Waits(final[i], GatesBehind(final, bindings, final[i].id)) {
      LegWaits(ns, gs, bindings, gates, final[i]);
    }
  }
}
