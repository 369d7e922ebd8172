/**
 * Pruning of an exported graph before it is laid out
 * (metacognition/visualization/layout_engine.py, `prune_low_score`).
 *
 * The source filters the record list, collects the ids of the survivors and
 * then walks the survivors, resetting in place the `parent` of every record
 * whose parent did not survive. Records are values of `GraphNode` here; the
 * list of records is an array, and writing a record back into the array
 * stands for the in-place update of the shared record.
 */
module LayoutEngine {
  import opened Wrappers
  import opened Thoughts
  import opened GraphExport

  /** The default `min_score` of `prune_low_score`. */
  const DefaultMinScore: real := 0.5

  /** A record survives when its score (0.0 when absent) reaches `minScore`, or when it is a root. */
  predicate Keep(n: GraphNode, minScore: real) {
    n.score.GetOr(0.0) >= minScore || n.parent.None?
  }

  /**
   * The positions of the surviving records, in list order: exactly the
   * positions whose record is kept, each once, increasing.
   */
  function KeptIndices(g: seq<GraphNode>, minScore: real): (ks: seq<nat>)
    ensures |ks| <= |g|
    ensures forall j :: 0 <= j < |ks| ==> ks[j] < |g|
  {
    if g == [] then []
    else
      var ks := KeptIndices(g[..|g| - 1], minScore);
      if Keep(g[|g| - 1], minScore) then ks + [|g| - 1] else ks
  }

  /**
   * Filtering keeps list order: the kept positions are exactly those whose
   * record satisfies `Keep`, each listed once, in increasing order.
   */
  lemma {:induction false} KeptInOrder(g: seq<GraphNode>, minScore: real)
    ensures var ks := KeptIndices(g, minScore);
      && (forall j :: 0 <= j < |ks| ==> Keep(g[ks[j]], minScore))
      && (forall j, k :: 0 <= j < k < |ks| ==> ks[j] < ks[k])
      && (forall i :: 0 <= i < |g| && Keep(g[i], minScore) ==> i in ks)
  {
    if g != [] {
      var init := g[..|g| - 1];
      KeptInOrder(init, minScore);
      var ks := KeptIndices(init, minScore);
      assert forall j :: 0 <= j < |ks| ==> g[ks[j]] == init[ks[j]];
      if Keep(g[|g| - 1], minScore) {
        var ks' := ks + [|g| - 1];
        assert KeptIndices(g, minScore) == ks';
        forall j | 0 <= j < |ks'| ensures Keep(g[ks'[j]], minScore) {
          if j < |ks| {
            assert ks'[j] == ks[j] && Keep(init[ks[j]], minScore);
          }
        }
      } else {
        assert KeptIndices(g, minScore) == ks;
      }
    }
  }

  /** The surviving records, in list order (`keep` in the source). */
  function KeptNodes(g: seq<GraphNode>, minScore: real): (r: seq<GraphNode>)
    ensures var ks := KeptIndices(g, minScore);
      |r| == |ks| && forall j :: 0 <= j < |ks| ==> r[j] == g[ks[j]]
  {
    var ks := KeptIndices(g, minScore);
    seq(|ks|, j requires 0 <= j < |ks| => g[ks[j]])
  }

  /** The ids of a list of records. */
  function Ids(xs: seq<GraphNode>): set<NodeId> {
    set n | n in xs :: n.id
  }

  /** The ids of the surviving records (`keep_ids`). */
  function KeptIds(g: seq<GraphNode>, minScore: real): set<NodeId> {
    Ids(KeptNodes(g, minScore))
  }

  /**
   * The record after the re-parenting step: only `parent` may change, it
   * changes only when it names a record outside `ids`, and then it becomes
   * None; afterwards a present parent always names a record in `ids`.
   */
  function Reparent(n: GraphNode, ids: set<NodeId>): (r: GraphNode)
    ensures r == n.(parent := r.parent)
    ensures r.parent == n.parent || (r.parent.None? && n.parent.value !in ids)
    ensures r.parent.Some? ==> r.parent.value in ids
    ensures n.parent.None? || n.parent.value in ids ==> r == n
  {
    if n.parent.Some? && n.parent.value !in ids then n.(parent := None) else n
  }

  /** Every record of `xs` after the re-parenting step against `ids`. */
  function ReparentAll(xs: seq<GraphNode>, ids: set<NodeId>): (r: seq<GraphNode>)
    ensures |r| == |xs| && forall j :: 0 <= j < |r| ==> r[j] == Reparent(xs[j], ids)
  {
    seq(|xs|, j requires 0 <= j < |xs| => Reparent(xs[j], ids))
  }

  /** `prune_low_score(graph, minScore)["nodes"]`. */
  function Pruned(g: seq<GraphNode>, minScore: real): (r: seq<GraphNode>)
    ensures |r| <= |g|
    ensures forall j :: 0 <= j < |r| && r[j].parent.Some? ==> r[j].parent.value in KeptIds(g, minScore)
  {
    ReparentAll(KeptNodes(g, minScore), KeptIds(g, minScore))
  }

  /**
   * `prune_low_score` over the record array `nodes`; `null` stands for a
   * document without a `"nodes"` key, which prunes to the empty list. The
   * surviving records are re-parented in place, the others are untouched,
   * and the result lists the surviving records after the update.
   */
  method PruneLowScore(nodes: array?<GraphNode>, minScore: real) returns (kept: seq<GraphNode>)
    modifies nodes
    ensures nodes == null ==> kept == []
    ensures nodes != null ==> kept == Pruned(old(nodes[..]), minScore)
    ensures nodes != null ==>
      var ks := KeptIndices(old(nodes[..]), minScore);
      var ids := KeptIds(old(nodes[..]), minScore);
      && (forall j :: 0 <= j < |ks| ==> nodes[ks[j]] == Reparent(old(nodes[ks[j]]), ids))
      && (forall i :: 0 <= i < nodes.Length && !Keep(old(nodes[i]), minScore) ==> nodes[i] == old(nodes[i]))
  {
    if nodes == null {
      return [];
    }
    var keep, at := Survivors(nodes, minScore);
    KeptInOrder(nodes[..], minScore);
    var keepIds := set n | n in keep :: n.id;
    kept := ReparentInPlace(nodes, keep, at, keepIds);
  }

  /** The first pass: the surviving records and their positions, in list order. */
  method Survivors(nodes: array<GraphNode>, minScore: real) returns (keep: seq<GraphNode>, at: seq<nat>)
    ensures at == KeptIndices(nodes[..], minScore)
    ensures keep == KeptNodes(nodes[..], minScore)
  {
    keep, at := [], [];
    for i := 0 to nodes.Length
      invariant at == KeptIndices(nodes[..i], minScore)
      invariant keep == KeptNodes(nodes[..i], minScore)
    {
      assert nodes[..i + 1][..i] == nodes[..i];
      if Keep(nodes[i], minScore) {
        keep := keep + [nodes[i]];
        at := at + [i];
      }
    }
    assert nodes[..nodes.Length] == nodes[..];
  }

  /**
   * The second pass: `keep[j]` is the record stored at `at[j]`; each one
   * has a dangling parent reset in place, and the updated records are
   * returned in order.
   */
  method ReparentInPlace(nodes: array<GraphNode>, keep: seq<GraphNode>, at: seq<nat>, ids: set<NodeId>)
    returns (kept: seq<GraphNode>)
    requires |keep| == |at|
    requires forall j :: 0 <= j < |at| ==> at[j] < nodes.Length && nodes[at[j]] == keep[j]
    requires forall j, k :: 0 <= j < k < |at| ==> at[j] < at[k]
    modifies nodes
    ensures kept == ReparentAll(keep, ids)
    ensures forall j :: 0 <= j < |at| ==> nodes[at[j]] == Reparent(keep[j], ids)
    ensures forall i :: 0 <= i < nodes.Length && i !in at ==> nodes[i] == old(nodes[i])
  {
    kept := [];
    for j := 0 to |at|
      invariant kept == ReparentAll(keep[..j], ids)
      invariant forall j' :: 0 <= j' < j ==> nodes[at[j']] == Reparent(keep[j'], ids)
      invariant forall j' :: j <= j' < |at| ==> nodes[at[j']] == keep[j']
      invariant forall i :: 0 <= i < nodes.Length && i !in at ==> nodes[i] == old(nodes[i])
    {
      var k := at[j];
      if nodes[k].parent.Some? && nodes[k].parent.value !in ids {
        nodes[k] := nodes[k].(parent := None);
      }
      kept := kept + [nodes[k]];
      assert keep[..j + 1] == keep[..j] + [keep[j]];
    }
    assert keep[..|at|] == keep;
  }

  // ---------------------------------------------------------------------
  // Properties of pruning.
  // ---------------------------------------------------------------------

  /** After pruning, every present parent is the id of a record in the result. */
  lemma {:induction false} PrunedClosed(g: seq<GraphNode>, minScore: real)
    ensures var p := Pruned(g, minScore);
      forall j :: 0 <= j < |p| && p[j].parent.Some? ==>
        exists k :: 0 <= k < |p| && p[k].id == p[j].parent.value
  {
    var p := Pruned(g, minScore);
    var kept := KeptNodes(g, minScore);
    forall j | 0 <= j < |p| && p[j].parent.Some?
      ensures exists k :: 0 <= k < |p| && p[k].id == p[j].parent.value
    {
      var n :| n in kept && n.id == p[j].parent.value;
      var k :| 0 <= k < |kept| && kept[k] == n;
      assert p[k].id == n.id;
    }
  }

  /** Roots survive pruning unchanged. */
  lemma {:induction false} RootsKept(g: seq<GraphNode>, minScore: real)
    ensures forall i :: 0 <= i < |g| && g[i].parent.None? ==> g[i] in Pruned(g, minScore)
  {
    var ks := KeptIndices(g, minScore);
    var p := Pruned(g, minScore);
    KeptInOrder(g, minScore);
    forall i | 0 <= i < |g| && g[i].parent.None? ensures g[i] in p {
      assert Keep(g[i], minScore);
      var j :| 0 <= j < |ks| && ks[j] == i;
      assert p[j] == g[i];
    }
  }

  /** A list whose records all survive keeps every position. */
  lemma {:induction false} AllKept(g: seq<GraphNode>, minScore: real)
    requires forall i :: 0 <= i < |g| ==> Keep(g[i], minScore)
    ensures KeptNodes(g, minScore) == g
  {
    var ks := KeptIndices(g, minScore);
    KeptInOrder(g, minScore);
    // increasing, in range and covering every position: ks is 0, 1, ..., |g| - 1
    forall j | 0 <= j < |ks| ensures ks[j] == j {
      IndexFloor(ks, |g|, j);
    }
  }

  /** In an increasing list of naturals below `n` that covers `0..n`, position `j` holds `j`. */
  lemma {:induction false} IndexFloor(ks: seq<nat>, n: nat, j: nat)
    requires forall j, k :: 0 <= j < k < |ks| ==> ks[j] < ks[k]
    requires forall j :: 0 <= j < |ks| ==> ks[j] < n
    requires forall i :: 0 <= i < n ==> i in ks
    requires j < |ks|
    ensures ks[j] == j
    decreases j
  {
    if j > 0 {
      IndexFloor(ks, n, j - 1);
    }
    if ks[j] != j {
      // ks[j] > j, and the value j sits in ks at some position: below j it clashes
      // with ks[p] == p, above j it is smaller than ks[j]
      assert j in ks;
      var p :| 0 <= p < |ks| && ks[p] == j;
      if p < j {
        IndexFloor(ks, n, p);
      }
      assert false;
    }
  }

  /** Re-parenting keeps every id. */
  lemma {:induction false} ReparentKeepsIds(xs: seq<GraphNode>, ids: set<NodeId>)
    ensures Ids(ReparentAll(xs, ids)) == Ids(xs)
  {
    var r := ReparentAll(xs, ids);
    forall x | x in Ids(xs) ensures x in Ids(r) {
      var k :| 0 <= k < |xs| && xs[k].id == x;
      assert r[k].id == x;
    }
    forall x | x in Ids(r) ensures x in Ids(xs) {
      var k :| 0 <= k < |r| && r[k].id == x;
      assert xs[k].id == x;
    }
  }

  /** Re-parenting twice against the same ids is re-parenting once. */
  lemma {:induction false} ReparentTwice(xs: seq<GraphNode>, ids: set<NodeId>)
    ensures ReparentAll(ReparentAll(xs, ids), ids) == ReparentAll(xs, ids)
  {
    var r := ReparentAll(xs, ids);
    var q := ReparentAll(r, ids);
    forall j | 0 <= j < |r| ensures q[j] == r[j] {
      assert r[j].parent.None? || r[j].parent.value in ids;
    }
  }

  /** Pruning a pruned list again with the same threshold changes nothing. */
  lemma {:induction false} PruneIdempotent(g: seq<GraphNode>, minScore: real)
    ensures Pruned(Pruned(g, minScore), minScore) == Pruned(g, minScore)
  {
    var kept := KeptNodes(g, minScore);
    var ids := KeptIds(g, minScore);
    var p := ReparentAll(kept, ids);
    assert p == Pruned(g, minScore);
    KeptInOrder(g, minScore);
    forall i | 0 <= i < |p| ensures Keep(p[i], minScore) {
      assert Keep(kept[i], minScore);
    }
    AllKept(p, minScore);
    ReparentKeepsIds(kept, ids);
    assert KeptIds(p, minScore) == ids;
    ReparentTwice(kept, ids);
  }
}
