/**
 * Conversion of an exported graph to the 3-D force-graph widget's input
 * (interface/components/force_graph_3d.js, `toForceGraphFormat`).
 *
 * `graphJson?.nodes || []` is modelled by two options: the document may be
 * missing, and a present document may lack its `nodes` array.
 */
module ForceGraph {
  import opened Wrappers
  import opened Thoughts
  import opened GraphExport
  import opened LayoutEngine

  datatype GraphJson = GraphJson(nodes: Option<seq<GraphNode>>)

  datatype FgNode = FgNode(id: NodeId, name: string, score: Option<real>, content: string)

  datatype Link = Link(source: NodeId, target: NodeId)

  datatype FgGraph = FgGraph(nodes: seq<FgNode>, links: seq<Link>)

  /** `graphJson?.nodes || []`. */
  function NodesOf(doc: Option<GraphJson>): seq<GraphNode> {
    if doc.Some? && doc.value.nodes.Some? then doc.value.nodes.value else []
  }

  function ToFgNode(n: GraphNode): FgNode {
    FgNode(n.id, n.labelText, n.score, n.content)
  }

  /** One widget node per record, in order. */
  function FgNodes(ns: seq<GraphNode>): (r: seq<FgNode>)
    ensures |r| == |ns|
    ensures forall i :: 0 <= i < |ns| ==>
      r[i].id == ns[i].id && r[i].name == ns[i].labelText && r[i].score == ns[i].score
      && r[i].content == ns[i].content
  {
    seq(|ns|, i requires 0 <= i < |ns| => ToFgNode(ns[i]))
  }

  /** `.filter(n => n.parent).map(n => ({source: n.parent, target: n.id}))`. */
  function Links(ns: seq<GraphNode>): (r: seq<Link>)
    ensures |r| <= |ns|
  {
    if ns == [] then []
    else (if ns[0].parent.Some? then [Link(ns[0].parent.value, ns[0].id)] else []) + Links(ns[1..])
  }

  /** `toForceGraphFormat(graphJson)`. */
  function ToForceGraph(doc: Option<GraphJson>): (r: FgGraph)
    ensures r.nodes == FgNodes(NodesOf(doc)) && r.links == Links(NodesOf(doc))
    ensures doc.None? || doc.value.nodes.None? ==> r.nodes == [] && r.links == []
    ensures |r.links| <= |r.nodes|
  {
    FgGraph(FgNodes(NodesOf(doc)), Links(NodesOf(doc)))
  }

  /** The links of a record: one from its parent when it has one, none otherwise. */
  lemma LinksOfOne(n: GraphNode)
    ensures n.parent.Some? ==> Links([n]) == [Link(n.parent.value, n.id)]
    ensures n.parent.None? ==> Links([n]) == []
  {
    assert [n][1..] == [];
  }

  /** The links follow the records in order: those of `a` first, then those of `b`. */
  lemma {:induction false} LinksAppend(a: seq<GraphNode>, b: seq<GraphNode>)
    ensures Links(a + b) == Links(a) + Links(b)
  {
    if a == [] {
      assert a + b == b;
    } else {
      var head := if a[0].parent.Some? then [Link(a[0].parent.value, a[0].id)] else [];
      assert (a + b)[0] == a[0] && (a + b)[1..] == a[1..] + b;
      assert Links(a + b) == head + Links(a[1..] + b);
      LinksAppend(a[1..], b);
      assert head + (Links(a[1..]) + Links(b)) == (head + Links(a[1..])) + Links(b);
    }
  }

  /**
   * Every link joins a record to its parent, and every record with a parent
   * contributes the link from that parent to it.
   */
  lemma {:induction false} LinksAreParents(ns: seq<GraphNode>)
    ensures forall l :: l in Links(ns) <==>
      exists i :: 0 <= i < |ns| && ns[i].parent == Some(l.source) && ns[i].id == l.target
  {
    if ns != [] {
      LinksAreParents(ns[1..]);
      var head := if ns[0].parent.Some? then [Link(ns[0].parent.value, ns[0].id)] else [];
      forall l ensures l in Links(ns) <==>
        exists i :: 0 <= i < |ns| && ns[i].parent == Some(l.source) && ns[i].id == l.target
      {
        if l in Links(ns) {
          if l in head {
            assert ns[0].parent == Some(l.source) && ns[0].id == l.target;
          } else {
            assert l in Links(ns[1..]);
            var i :| 0 <= i < |ns[1..]| && ns[1..][i].parent == Some(l.source) && ns[1..][i].id == l.target;
            assert ns[i + 1] == ns[1..][i];
          }
        }
        if exists i :: 0 <= i < |ns| && ns[i].parent == Some(l.source) && ns[i].id == l.target {
          var i :| 0 <= i < |ns| && ns[i].parent == Some(l.source) && ns[i].id == l.target;
          if i == 0 {
            assert l in head;
          } else {
            assert ns[1..][i - 1] == ns[i];
            assert l in Links(ns[1..]);
          }
        }
      }
    }
  }

  /**
   * A pruned graph renders without dangling links: every link's source is
   * the id of a node that is drawn.
   */
  lemma {:induction false} PrunedLinksResolve(g: seq<GraphNode>, minScore: real)
    ensures var r := ToForceGraph(Some(GraphJson(Some(Pruned(g, minScore)))));
      forall l :: l in r.links ==> exists k :: 0 <= k < |r.nodes| && r.nodes[k].id == l.source
  {
    var p := Pruned(g, minScore);
    var r := ToForceGraph(Some(GraphJson(Some(p))));
    LinksAreParents(p);
    PrunedClosed(g, minScore);
    forall l | l in r.links ensures exists k :: 0 <= k < |r.nodes| && r.nodes[k].id == l.source {
      var i :| 0 <= i < |p| && p[i].parent == Some(l.source) && p[i].id == l.target;
      var k :| 0 <= k < |p| && p[k].id == p[i].parent.value;
      assert r.nodes[k].id == l.source;
    }
  }
}
