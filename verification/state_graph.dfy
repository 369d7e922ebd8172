/**
 * The shared pipeline state and the pipeline's topology
 * (orchestration/state_graph.py).
 *
 * `SIAState` is a dictionary that every node updates in place, so it is a
 * class here. The graph library itself is not modelled: `build_graph` only
 * declares four nodes, an entry point, one conditional edge and three fixed
 * edges, and `Next` states that topology as a function.
 */
module StateGraph {
  import opened Wrappers
  import opened GraphExport

  /** A value stored in the state's `trace` dictionary. */
  datatype TraceValue =
    | Text(s: string)                // a mode, a policy reason, ...
    | Graph(nodes: seq<GraphNode>)   // the exported graph-of-thoughts
    | Opaque                         // written by nodes outside this model

  type Trace = map<string, TraceValue>

  /**
   * The keys of `SIAState` that the modelled nodes read or write; a missing
   * key is None. `user_query` is always present in the pipeline (the caller
   * sets it), so it is a plain string.
   */
  class SiaState {
    var userQuery: string
    var mode: Option<string>
    var plan: Option<string>
    var response: Option<string>
    var trace: Option<Trace>

    /** The state the request pipeline hands to the graph: a query and an empty trace. */
    constructor(query: string)
      ensures userQuery == query && mode == None && plan == None && response == None
      ensures trace == Some(map[])
    {
      userQuery := query;
      mode := None;
      plan := None;
      response := None;
      trace := Some(map[]);
    }
  }

  /** The nodes of the compiled graph, and langgraph's `END` marker. */
  datatype Node = Supervisor | Retrieve | PlanStep | Respond | End

  /** The inner `route` of `build_graph`: the node that follows the supervisor. */
  function Route(mode: Option<string>): (r: Node)
    ensures r in {Retrieve, PlanStep, Respond}
    ensures r == Retrieve <==> mode == Some("retrieve")
    ensures r == PlanStep <==> mode == Some("plan")
  {
    var m := mode.GetOr("direct");
    if m == "retrieve" then Retrieve
    else if m == "plan" then PlanStep
    else Respond
  }

  /** The edges of the compiled graph, given the mode the supervisor wrote. */
  function Next(node: Node, mode: Option<string>): Node {
    if node == Supervisor then Route(mode)
    else if node == Retrieve || node == PlanStep then Respond
    else End
  }

  /** How many nodes a walk from `node` can still visit; every edge lowers it. */
  function Rank(node: Node): nat {
    match node
    case End => 0
    case Supervisor => 3
    case Retrieve | PlanStep => 2
    case Respond => 1
  }

  /** The nodes visited from `node` until END. */
  function WalkFrom(node: Node, mode: Option<string>): seq<Node>
    decreases Rank(node)
  {
    if node == End then []
    else [node] + WalkFrom(Next(node, mode), mode)
  }

  /**
   * One invocation of the compiled graph: the sequence of nodes run, from
   * the entry point to the node whose successor is END; the graph has no
   * cycle, so every walk ends.
   */
  function Walk(mode: Option<string>): (w: seq<Node>)
    ensures |w| >= 2 && w[0] == Supervisor && w[|w| - 1] == Respond
  {
    WalkShape(mode);
    WalkFrom(Supervisor, mode)
  }

  /** A walk is the supervisor, the routed node unless it is the answer, and the answer. */
  lemma WalkShape(mode: Option<string>)
    ensures WalkFrom(Supervisor, mode) ==
      if Route(mode) == Respond then [Supervisor, Respond] else [Supervisor, Route(mode), Respond]
  {
    assert WalkFrom(End, mode) == [];
    assert WalkFrom(Respond, mode) == [Respond];
    assert Route(mode) != Respond ==> WalkFrom(Route(mode), mode) == [Route(mode), Respond];
  }

  /** A walk follows the edges of the graph and stops at the node whose successor is END. */
  lemma WalkFollowsEdges(mode: Option<string>)
    ensures var w := Walk(mode);
      && Next(w[|w| - 1], mode) == End
      && forall i :: 0 <= i < |w| - 1 ==> Next(w[i], mode) == w[i + 1]
  {
    WalkShape(mode);
  }

  /**
   * A walk runs the answer node once, at the end, and retrieval or planning
   * exactly in the matching mode, never both.
   */
  lemma WalkVisits(mode: Option<string>)
    ensures var w := Walk(mode);
      && (forall i :: 0 <= i < |w| - 1 ==> w[i] != Respond)
      && !(Retrieve in w && PlanStep in w)
      && (Retrieve in w <==> mode == Some("retrieve"))
      && (PlanStep in w <==> mode == Some("plan"))
  {
    WalkShape(mode);
    var w := Walk(mode);
    match Route(mode)
    case Respond =>
      assert w == [Supervisor, Respond];
    case Retrieve =>
      assert w == [Supervisor, Retrieve, Respond];
    case PlanStep =>
      assert w == [Supervisor, PlanStep, Respond];
  }
}
