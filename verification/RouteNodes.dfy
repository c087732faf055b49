/** The nodes of a recipe or route, and the graph they form. */
module RouteNodes {
  import opened Prelude
  import opened Graph

  type Id = string

  datatype Tier = Direct | Quick | Standard | Strong | Thorough | Adversarial

  function Rank(t: Tier): nat {
    match t
    case Direct => 0 case Quick => 1 case Standard => 2 case Strong => 3 case Thorough => 4 case Adversarial => 5
  }

  datatype Kind = ReviewWorker | MapWorker | PipelineStage | CapabilityOwner | ResourceRunner | OtherKind(name: string)

  /** How the workflow goes on behind a node. */
  datatype Continuation = InlineNext | Supervised | HumanGate(gate: string) | Monitor(name: string)

  datatype ContinuationKind = InlineNextKind | SupervisedKind | HumanGateKind | MonitorKind

  function KindOf(c: Continuation): ContinuationKind {
    match c
    case InlineNext => InlineNextKind
    case Supervised => SupervisedKind
    case HumanGate(_) => HumanGateKind
    case Monitor(_) => MonitorKind
  }

  /** The parallel-group keys of a node. A recipe may carry them already; then `alias`, the older key
      for the group, and the numbers are whatever the recipe says (a missing index counts as -1). */
  datatype Leg = Leg(
    group: string,
    alias: Option<string>,
    groupKind: string,
    joinPolicy: string,
    axes: seq<string>,
    index: int,
    count: int,
    suffix: string,
    anchor: Id,
    perspective: string)

  datatype Flag = Flag(value: bool) | NotBoolean

  /** Keys the recipe validator does not look at, and that travel into the route with the node. */
  datatype Keys = Keys(dispatchFallback: bool, surface: Option<string>, registered: Option<Flag>, affinity: Option<string>)

  const NO_KEYS := Keys(false, None, None, None)

  datatype Node = Node(
    id: Id,
    kind: Kind,
    unit: string,
    depth: Option<nat>,
    profile: Option<string>,
    deps: seq<Id>,
    inputs: seq<string>,
    outputs: seq<string>,
    scopes: seq<string>,
    gate: string,
    terminal: Option<bool>,
    terminalGate: Option<string>,
    continuation: Option<Continuation>,
    leg: Option<Leg>,
    keys: Keys)

  function NextKind(n: Node): Option<ContinuationKind> {
    if n.continuation.Some? then Some(KindOf(n.continuation.value)) else None
  }

  /** A human gate in front of a node, or behind one that ends the workflow. */
  datatype Binding = Binding(gate: string, node: Id, entry: bool)

  predicate HasId(nodes: seq<Node>, id: Id) {
    exists i :: 0 <= i < |nodes| && nodes[i].id == id
  }

  predicate UniqueIds(nodes: seq<Node>) {
    forall i, j :: 0 <= i < j < |nodes| ==> nodes[i].id != nodes[j].id
  }

  /** The first node with the id. */
  function Find(nodes: seq<Node>, id: Id): (n: Node)
    requires HasId(nodes, id)
    ensures n in nodes && n.id == id
  {
    if nodes[0].id == id then nodes[0]
    else
      assert HasId(nodes[1..], id) by {
        var i :| 0 <= i < |nodes| && nodes[i].id == id;
        assert nodes[1..][i - 1].id == id;
      }
      Find(nodes[1..], id)
  }

  lemma FindUnique(nodes: seq<Node>, n: Node)
    requires UniqueIds(nodes) && n in nodes
    ensures HasId(nodes, n.id) && Find(nodes, n.id) == n
  {
    var i :| 0 <= i < |nodes| && nodes[i] == n;
    assert nodes[i].id == n.id;
    var m := Find(nodes, n.id);
    var j :| 0 <= j < |nodes| && nodes[j] == m;
  }

  function IdsOf(nodes: seq<Node>): (r: seq<Id>)
    ensures |r| == |nodes|
  {
    seq(|nodes|, i requires 0 <= i < |nodes| => nodes[i].id)
  }

  function Ids(nodes: seq<Node>): set<Id> {
    set i | 0 <= i < |nodes| :: nodes[i].id
  }

  /** The dependency graph of a list of nodes. */
  function DepGraph(nodes: seq<Node>): Graph<Id>
  {
    map x | x in Ids(nodes) :: Find(nodes, x).deps
  }
}
