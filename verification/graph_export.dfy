/**
 * The diagnostics export of a graph-of-thoughts run
 * (metacognition/visualization/graph_export.py): one JSON record per thought.
 *
 * A record is a value of `GraphNode`. The `score` field is optional because
 * the pruning and rendering code read it with a default from records that
 * may come from elsewhere; the export always fills it in. Node ids in the
 * source are non-empty hex strings, so a present `parent` is always truthy.
 */
module GraphExport {
  import opened Wrappers
  import opened Thoughts

  datatype GraphNode = GraphNode(
    id: NodeId,
    parent: Option<NodeId>,
    labelText: string, // the record's "label"
    score: Option<real>,
    content: string)

  /** Number of content characters a label shows before it is cut. */
  const LabelWidth := 80

  /** `content[:80] + ("..." if len(content) > 80 else "")`. */
  function Label(content: string): (r: string)
    ensures |r| <= LabelWidth + 3
    ensures |content| <= LabelWidth ==> r == content
    ensures |content| > LabelWidth ==> |r| == LabelWidth + 3 && r[LabelWidth..] == "..."
    ensures var shown := if |content| < LabelWidth then |content| else LabelWidth;
      r[..shown] == content[..shown]
  {
    if |content| > LabelWidth then content[..LabelWidth] + "..." else content
  }

  function ExportNode(t: Thought): GraphNode {
    GraphNode(t.id, t.parentId, Label(t.content), Some(t.score), t.content)
  }

  /** `export_got_to_json(nodes)["nodes"]`. */
  function ExportGot(ts: seq<Thought>): (r: seq<GraphNode>)
    ensures |r| == |ts|
    ensures forall i :: 0 <= i < |ts| ==> r[i] == ExportNode(ts[i])
  {
    if ts == [] then [] else [ExportNode(ts[0])] + ExportGot(ts[1..])
  }

  /** Every parent reference names a record that comes earlier in the list. */
  ghost predicate ParentsEarlier(g: seq<GraphNode>) {
    forall i :: 0 <= i < |g| && g[i].parent.Some? ==>
      exists j :: 0 <= j < i && g[j].id == g[i].parent.value
  }

  /** Export distributes over concatenation, so exporting a growing list is incremental. */
  lemma {:induction false} ExportAppend(a: seq<Thought>, b: seq<Thought>)
    ensures ExportGot(a + b) == ExportGot(a) + ExportGot(b)
  {
    if a == [] {
      assert a + b == b;
    } else {
      assert (a + b)[1..] == a[1..] + b;
      ExportAppend(a[1..], b);
    }
  }

  /**
   * Thoughts whose ids count up from `start` and whose parents have smaller
   * ids (the shape of the planner's `explored` list) export to a record list
   * in which every parent reference resolves to an earlier record.
   */
  lemma {:induction false} ExportKeepsForest(ts: seq<Thought>, start: NodeId)
    requires forall i :: 0 <= i < |ts| ==> ts[i].id == start + i
    requires forall i :: 0 <= i < |ts| && ts[i].parentId.Some? ==>
               start <= ts[i].parentId.value < start + i
    ensures ParentsEarlier(ExportGot(ts))
  {
    var g := ExportGot(ts);
    forall i | 0 <= i < |g| && g[i].parent.Some?
      ensures exists j :: 0 <= j < i && g[j].id == g[i].parent.value
    {
      var j := ts[i].parentId.value - start;
      assert g[j].id == g[i].parent.value;
    }
  }
}
