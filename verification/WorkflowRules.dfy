/** What the recipe validator asks of continuations and human gates, node by node. */
module WorkflowRules {
  import opened Prelude
  import opened Graph
  import opened RouteNodes
  import opened WorkflowContract

  predicate HasDirectDependent(nodes: seq<Node>, id: Id) {
    exists i :: 0 <= i < |nodes| && id in nodes[i].deps
  }

  /** The binding gates the entry to a direct dependent of `id`. */
  predicate GuardsNext(nodes: seq<Node>, b: Binding, id: Id) {
    b.entry && exists k :: 0 <= k < |nodes| && nodes[k].id == b.node && id in nodes[k].deps
  }

  predicate NothingGuards(nodes: seq<Node>, bindings: seq<Binding>, id: Id) {
    forall i :: 0 <= i < |bindings| ==> !GuardsNext(nodes, bindings[i], id)
  }

  predicate Guards(nodes: seq<Node>, bindings: seq<Binding>, id: Id, gate: string) {
    exists i :: 0 <= i < |bindings| && bindings[i].gate == gate && GuardsNext(nodes, bindings[i], id)
  }

  /** The last node of a workflow ends it under its own gate; any other says how it goes on, and says
      that it waits for a human exactly where a gate guards one of its direct dependents. */
  predicate GoesOnRightly(nodes: seq<Node>, bindings: seq<Binding>, n: Node) {
    if !HasDirectDependent(nodes, n.id) then
      n.continuation == None && n.terminal == Some(true) && n.terminalGate == Some(n.gate) && n.kind != ResourceRunner
    else
      && n.terminal == None && n.terminalGate == None && n.continuation.Some?
      && (n.kind == ResourceRunner ==> n.continuation == Some(Supervised))
      && match n.continuation.value
         case HumanGate(gate) => Guards(nodes, bindings, n.id, gate)
         case InlineNext => NothingGuards(nodes, bindings, n.id)
         case Supervised => NothingGuards(nodes, bindings, n.id)
         case Monitor(name) => NothingGuards(nodes, bindings, n.id) && exists i :: 0 <= i < |name| && !Space(name[i])
  }

  /** Every gate is declared once and bound once, to a known node; no node has two entry gates, and a
      gate at the end belongs to a node nothing depends on. */
  predicate GatesRight(nodes: seq<Node>, bindings: seq<Binding>, gates: seq<string>) {
    && (forall i, j :: 0 <= i < j < |gates| ==> gates[i] != gates[j])
    && (forall i, j :: 0 <= i < j < |bindings| ==> bindings[i].gate != bindings[j].gate)
    && (forall g :: g in gates ==> exists i :: 0 <= i < |bindings| && bindings[i].gate == g)
    && (forall i :: 0 <= i < |bindings| ==> BindingRight(nodes, gates, bindings[i]))
    && forall i, j :: 0 <= i < j < |bindings| && bindings[i].entry && bindings[j].entry ==> bindings[i].node != bindings[j].node
  }

  predicate BindingRight(nodes: seq<Node>, gates: seq<string>, b: Binding) {
    && b.gate in gates && (exists k :: 0 <= k < |nodes| && nodes[k].id == b.node)
    && (b.entry || !HasDirectDependent(nodes, b.node))
  }

  lemma BehindIs(nodes: seq<Node>, bindings: seq<Binding>, id: Id)
    ensures GatesBehind(nodes, bindings, id) == {} <==> NothingGuards(nodes, bindings, id)
    ensures forall g :: g in GatesBehind(nodes, bindings, id) <==> Guards(nodes, bindings, id, g)
  {
    forall i | 0 <= i < |bindings| ensures bindings[i].entry && DependsOn(nodes, bindings[i].node, id) <==> GuardsNext(nodes, bindings[i], id) {}
    var behind := GatesBehind(nodes, bindings, id);
    if behind != {} {
      var g :| g in behind;
      var i :| 0 <= i < |bindings| && bindings[i].entry && DependsOn(nodes, bindings[i].node, id) && bindings[i].gate == g;
      assert GuardsNext(nodes, bindings[i], id);
    }
    if i :| 0 <= i < |bindings| && GuardsNext(nodes, bindings[i], id) { assert bindings[i].gate in behind; }
  }

  lemma NodeIs(nodes: seq<Node>, bindings: seq<Binding>, n: Node)
    ensures GoesOn(nodes, bindings, n) <==> GoesOnRightly(nodes, bindings, n)
  {
    BehindIs(nodes, bindings, n.id);
    assert HasDependent(nodes, n.id) <==> HasDirectDependent(nodes, n.id);
  }

  lemma GatesAre(nodes: seq<Node>, bindings: seq<Binding>, gates: seq<string>)
    ensures BindingsFine(nodes, bindings, gates) <==> GatesRight(nodes, bindings, gates)
  {
    forall i | 0 <= i < |bindings| ensures BindingFine(nodes, gates, bindings[i]) <==> BindingRight(nodes, gates, bindings[i]) {
      BindingIs(nodes, gates, bindings[i]);
    }
  }

  lemma BindingIs(nodes: seq<Node>, gates: seq<string>, b: Binding)
    ensures BindingFine(nodes, gates, b) <==> BindingRight(nodes, gates, b)
  {
    assert HasDependent(nodes, b.node) <==> HasDirectDependent(nodes, b.node);
  }

  /** The validator's check of continuations and gates, spelled out. */
  lemma ContinuationsExactly(nodes: seq<Node>, bindings: seq<Binding>, gates: seq<string>)
    ensures ContinuationsFine(nodes, bindings, gates) <==>
            GatesRight(nodes, bindings, gates) && forall i :: 0 <= i < |nodes| ==> GoesOnRightly(nodes, bindings, nodes[i])
  {
    ContinuationsAre(nodes, bindings, gates);
    GatesAre(nodes, bindings, gates);
    forall i | 0 <= i < |nodes| ensures GoesOn(nodes, bindings, nodes[i]) <==> GoesOnRightly(nodes, bindings, nodes[i]) {
      NodeIs(nodes, bindings, nodes[i]);
    }
  }

  /** Why a contract cannot be sealed, and of which node. */
  lemma RefusedSeal(nodes: seq<Node>, e: ContractError)
    requires ErrorFits(nodes, e)
    ensures exists i :: 0 <= i < |nodes| && Refuses(nodes, nodes[i], e)
  {
    var i :| 0 <= i < |nodes| && !Seals(nodes[i], !HasDependent(nodes, nodes[i].id)) && e == SealError(nodes[i], !HasDependent(nodes, nodes[i].id));
    assert HasDependent(nodes, nodes[i].id) <==> HasDirectDependent(nodes, nodes[i].id);
    assert Refuses(nodes, nodes[i], e);
  }

  predicate Refuses(nodes: seq<Node>, n: Node, e: ContractError) {
    if HasDirectDependent(nodes, n.id) then n.continuation == None && e == NoContinuation(n.id)
    else if n.terminal != Some(true) || n.terminalGate == None || n.terminalGate == Some("") then e == LacksTerminalGate(n.id)
    else n.kind == ResourceRunner && e == EndsOnDetachedRun(n.id)
  }
}
