/**
 * The two pipeline nodes of orchestration/supervisor_agent.py: the keyword
 * router `supervisor_node` and the deliberation step `plan_node`. Both
 * update the shared state in place.
 */
module Supervisor {
  import opened Wrappers
  import opened Text
  import opened Thoughts
  import opened Transformations
  import opened Scoring
  import opened Planner
  import opened GraphExport
  import opened StateGraph

  const PlanKeywords: seq<string> := ["plan", "strategy", "roadmap", "wargame", "decision tree"]
  const RetrieveKeywords: seq<string> :=
    ["who", "what", "when", "contract", "clause", "email", "document", "history"]

  /** `any(k in q for k in words)`: some word occurs in `q` as a substring. */
  predicate AnyIn(words: seq<string>, q: string) {
    exists k :: k in words && Contains(q, k)
  }

  /**
   * The mode the router chooses for a query: retrieval keywords win over
   * planning keywords, and a query with neither is answered directly.
   */
  function Mode(query: string): (m: string)
    ensures m in {"direct", "plan", "retrieve"}
  {
    var q := Lower(query);
    if AnyIn(RetrieveKeywords, q) then "retrieve"
    else if AnyIn(PlanKeywords, q) then "plan"
    else "direct"
  }

  /**
   * `supervisor_node`: writes the chosen mode into the state and into the
   * trace under `"supervisor_mode"`, creating the trace when it is missing
   * and keeping every other trace entry.
   */
  method SupervisorNode(st: SiaState)
    modifies st
    ensures st.mode == Some(Mode(old(st.userQuery)))
    ensures st.trace == Some(old(st.trace).GetOr(map[])["supervisor_mode" := Text(Mode(old(st.userQuery)))])
    ensures st.userQuery == old(st.userQuery) && st.plan == old(st.plan) && st.response == old(st.response)
  {
    var q := Lower(st.userQuery);
    var mode := "direct";
    if AnyIn(PlanKeywords, q) {
      mode := "plan";
    }
    if AnyIn(RetrieveKeywords, q) {
      mode := "retrieve";
    }
    st.mode := Some(mode);
    var trace := st.trace.GetOr(map[]);
    st.trace := Some(trace["supervisor_mode" := Text(mode)]);
  }

  /**
   * After the supervisor, the graph runs the retrieval step exactly when a
   * retrieval keyword occurs, the planning step exactly when a planning
   * keyword occurs and no retrieval keyword does, and goes straight to the
   * answer otherwise.
   */
  lemma RoutedPath(query: string)
    ensures var q := Lower(query); var w := Walk(Some(Mode(query)));
      && (Retrieve in w <==> AnyIn(RetrieveKeywords, q))
      && (PlanStep in w <==> AnyIn(PlanKeywords, q) && !AnyIn(RetrieveKeywords, q))
      && (w == [Supervisor, Respond] <==> !AnyIn(PlanKeywords, q) && !AnyIn(RetrieveKeywords, q))
  {
    var w := Walk(Some(Mode(query)));
    WalkShape(Some(Mode(query)));
    WalkVisits(Some(Mode(query)));
    if Mode(query) == "direct" {
      assert Retrieve !in w && PlanStep !in w;
    } else {
      assert w[1] != Respond;
    }
  }

  /** Keywords are substrings, not words: "Plant a sapling" asks for a plan. */
  lemma KeywordIsSubstring()
    ensures Mode("Plant a sapling") == "plan"
  {
    var q := Lower("Plant a sapling");
    assert q == "plant a sapling";
    assert OccursAt(q, "plan", 0);
    assert "plan" in PlanKeywords;
    // no retrieval keyword starts with a letter of the query
    ghost var initials := {'w', 'c', 'e', 'd', 'h'};
    assert forall i :: 0 <= i < |q| ==> q[i] !in initials;
    forall k | k in RetrieveKeywords ensures !Contains(q, k) {
      assert |k| > 0 && k[0] in initials;
      if Contains(q, k) {
        var i :| 0 <= i <= |q| - |k| && OccursAt(q, k, i);
        OccursAtStartsWith(q, k, i);
        assert false;
      }
    }
  }

  lemma OccursAtStartsWith(t: string, w: string, i: int)
    requires OccursAt(t, w, i) && |w| > 0
    ensures t[i] == w[0]
  {
    assert t[i..i + |w|][0] == w[0];
  }

  /** A query naming both kinds of keyword is routed to retrieval. */
  lemma RetrievalOverridesPlanning()
    ensures Mode("What is the plan?") == "retrieve"
  {
    var q := Lower("What is the plan?");
    assert q == "what is the plan?";
    assert OccursAt(q, "what", 0);
    assert "what" in RetrieveKeywords;
  }

  /**
   * `plan_node`: runs the planner on the query with `depth=2, width=3` and
   * the heuristic scorer, stores the synthesis as the plan and the export
   * of all 14 explored thoughts under the trace key `"got_graph"`.
   * `fmt` is the score formatting of the synthesis entries.
   */
  method PlanNode(st: SiaState, fmt: real -> string, start: NodeId)
    returns (next: NodeId, ghost res: PlanResult)
    modifies st
    ensures Planned(old(st.userQuery), 2, 3, Score, fmt, start, res)
    ensures |res.explored| == 14 && next == start + 14
    ensures res.explored[0] == NewThought(old(st.userQuery), None, start)
    ensures res.final == res.explored[13] && res.final.score == Score(res.final.content)
    ensures st.plan == Some(res.final.content)
    ensures |st.plan.value| >= |SynthesisHeader| && st.plan.value[..|SynthesisHeader|] == SynthesisHeader
    ensures st.trace == Some(old(st.trace).GetOr(map[])["got_graph" := Graph(ExportGot(res.explored))])
    ensures ParentsEarlier(ExportGot(res.explored))
    ensures st.userQuery == old(st.userQuery) && st.mode == old(st.mode) && st.response == old(st.response)
  {
    var r;
    ghost var frontier, levels;
    r, next, frontier, levels := Plan(st.userQuery, 2, 3, Score, fmt, start);
    res := r;
    DefaultPlanSize();
    ExportKeepsForest(r.explored, start);
    st.plan := Some(r.final.content);
    var trace := st.trace.GetOr(map[]);
    st.trace := Some(trace["got_graph" := Graph(ExportGot(r.explored))]);
  }
}
