/**
 * The `ThoughtNode` record (metacognition/graph_of_thoughts/node.py).
 * The source draws each `node_id` from `uuid4()`; here an id is a natural
 * number handed out by a counter that callers thread through, so "fresh"
 * means "not below the counter". `created_ts` is not modelled.
 */
module Thoughts {
  import opened Wrappers

  type NodeId = nat

  datatype Thought = Thought(
    content: string,
    parentId: Option<NodeId>,
    id: NodeId,
    score: real,
    meta: map<string, string>)

  /**
   * `ThoughtNode(content=..., parent_id=...)`: the id is the counter's
   * current value, the score its default 0.0 and `meta` a new empty map.
   */
  function NewThought(content: string, parentId: Option<NodeId>, id: NodeId): (t: Thought)
    ensures t.content == content && t.parentId == parentId && t.id == id
    ensures t.score == 0.0 && |t.meta| == 0
  {
    Thought(content, parentId, id, 0.0, map[])
  }
}
