/**
 * The request pipeline of the chat front end (`run_sia` in
 * interface/app.py): the input gate, the session's conversation history,
 * one run of the compiled pipeline graph and the output gate.
 *
 * The compiled graph is a parameter (`graph`), a function from the state
 * it is invoked with to the state it returns. The Streamlit page, the
 * ingestion path and the graph's nodes beyond the ones modelled in
 * `Supervisor` are not part of this model.
 */
module App {
  import opened Wrappers
  import Policy
  import opened Context
  import opened StateGraph

  /**
   * A pipeline state dictionary as a value: the graph's result, or the
   * reply built for a rejected query. A missing key is None.
   */
  datatype State = State(
    userQuery: Option<string>,
    mode: Option<string>,
    plan: Option<string>,
    response: Option<string>,
    trace: Option<Trace>)

  /** The exception `run_sia` lets escape. */
  datatype RunError =
    | IndexError   // `ctx.add` with a negative `max_turns`
    | KeyError     // `out["response"]` when the graph returned no response

  /** The `max_turns` of the session's history. */
  const SessionMaxTurns := 18
  const InputRejection := "REJECTED by L0 Temple: "
  const OutputRejection := "REJECTED by L0 Temple (output): "

  /**
   * What the graph is invoked with: the sanitised query and an empty trace.
   * This is the value form of the state `StateGraph.SiaState`'s constructor builds.
   */
  function GraphInput(query: string): State {
    State(Some(query), None, None, None, Some(map[]))
  }

  /** The reply to a query the input gate rejects. */
  function Rejected(reason: string): State {
    State(None, None, None, Some(InputRejection + reason), Some(map["l0" := Text(reason)]))
  }

  /** The graph's result after the output gate has looked at its response (`""` when missing). */
  function Gated(p: Policy.Policy, out: State): State {
    var dec := Policy.CheckOutput(p, out.response.GetOr(""));
    if dec.allowed then out else out.(response := Some(OutputRejection + dec.reason))
  }

  /** What `run_sia` returns for the sanitised query `q` the input gate accepted. */
  function AcceptedReplyOf(p: Policy.Policy, graph: State -> State, q: string, n: int): Result<State, RunError> {
    if n < 0 then Failure(IndexError)
    else
      var out := Gated(p, graph(GraphInput(q)));
      if out.response.None? then Failure(KeyError) else Success(out)
  }

  /** The history's turns after `run_sia` accepted the sanitised query `q`, starting from `before`. */
  function AcceptedTurns(p: Policy.Policy, graph: State -> State, q: string, before: seq<Turn>, n: int): seq<Turn> {
    var withUser := Window(before + [Turn("user", q)], n);
    var out := Gated(p, graph(GraphInput(q)));
    if n < 0 || out.response.None? then withUser
    else Window(withUser + [Turn("assistant", out.response.value)], n)
  }

  /** What `run_sia` returns, for a history whose `max_turns` is `n`. */
  function Reply(p: Policy.Policy, graph: State -> State, query: string, n: int): Result<State, RunError> {
    var d := Policy.CheckInput(p, query);
    if !d.allowed then Success(Rejected(d.reason)) else AcceptedReplyOf(p, graph, d.sanitized, n)
  }

  /** The history's turns after `run_sia`, starting from `before`. */
  function TurnsAfter(p: Policy.Policy, graph: State -> State, query: string,
                      before: seq<Turn>, n: int): seq<Turn> {
    var d := Policy.CheckInput(p, query);
    if !d.allowed then before else AcceptedTurns(p, graph, d.sanitized, before, n)
  }

  /**
   * `run_sia`: check the query; on rejection reply at once. Otherwise run
   * the rest of the pipeline on the sanitised query.
   */
  method RunSia(p: Policy.Policy, ctx: ContextManager, graph: State -> State, query: string)
    returns (r: Result<State, RunError>)
    modifies ctx
    ensures ctx.maxTurns == old(ctx.maxTurns)
    ensures r == Reply(p, graph, query, ctx.maxTurns)
    ensures ctx.turns == TurnsAfter(p, graph, query, old(ctx.turns), ctx.maxTurns)
  {
    var d := Policy.CheckInput(p, query);
    if !d.allowed {
      return Success(Rejected(d.reason));
    }
    r := RunAccepted(p, ctx, graph, d.sanitized);
  }

  /**
   * The accepted path of `run_sia`: record the user turn, run the graph,
   * replace a response the output check rejects, and record the final
   * response as the assistant turn.
   */
  method RunAccepted(p: Policy.Policy, ctx: ContextManager, graph: State -> State, q: string)
    returns (r: Result<State, RunError>)
    modifies ctx
    ensures ctx.maxTurns == old(ctx.maxTurns)
    ensures r == AcceptedReplyOf(p, graph, q, ctx.maxTurns)
    ensures ctx.turns == AcceptedTurns(p, graph, q, old(ctx.turns), ctx.maxTurns)
  {
    var raised := ctx.Add("user", q);
    if raised {
      return Failure(IndexError);
    }
    var out := graph(GraphInput(q));
    out := Gated(p, out);   // overwrites `out["response"]` when the output check rejects it
    if out.response.None? {
      return Failure(KeyError);
    }
    raised := ctx.Add("assistant", out.response.value);
    r := Success(out);
  }

  // ---------------------------------------------------------------------
  // Properties of the pipeline.
  // ---------------------------------------------------------------------

  /**
   * A rejected query is answered with the rejection and a trace holding only
   * the reason; the history is untouched and the graph is never consulted,
   * so any other graph gives the same reply.
   */
  lemma RejectedInputShortCircuits(p: Policy.Policy, graph: State -> State, other: State -> State,
                                   query: string, before: seq<Turn>, n: int)
    requires !Policy.CheckInput(p, query).allowed
    ensures var reason := Policy.CheckInput(p, query).reason;
      && Reply(p, graph, query, n).Success?
      && Reply(p, graph, query, n).value.response == Some(InputRejection + reason)
      && Reply(p, graph, query, n).value.trace == Some(map["l0" := Text(reason)])
      && Reply(p, graph, query, n) == Reply(p, other, query, n)
      && TurnsAfter(p, graph, query, before, n) == before
  {
  }

  /**
   * The output gate changes nothing but the response: it keeps a response
   * the output check allows (a missing one counts as `""`) and replaces any
   * other with the output rejection.
   */
  lemma OutputGateOnlyResponse(p: Policy.Policy, out: State)
    ensures Gated(p, out) == out.(response := Gated(p, out).response)
    ensures var dec := Policy.CheckOutput(p, out.response.GetOr(""));
      Gated(p, out).response == if dec.allowed then out.response else Some(OutputRejection + dec.reason)
  {
  }

  /**
   * On an accepted query the reply is the graph's result for the sanitised
   * query, with its trace as the graph left it, and a response that is
   * either one the output check allows or the output rejection.
   */
  lemma AcceptedReply(p: Policy.Policy, graph: State -> State, query: string, n: int)
    requires Policy.CheckInput(p, query).allowed && Reply(p, graph, query, n).Success?
    ensures var out := graph(GraphInput(Policy.Sanitize(query)));
      var r := Reply(p, graph, query, n).value;
      && r.userQuery == out.userQuery && r.mode == out.mode && r.plan == out.plan
      && r.trace == out.trace
      && r.response.Some?
      && (Policy.CheckOutput(p, r.response.value).allowed ||
          r.response == Some(OutputRejection + Policy.CheckOutput(p, out.response.GetOr("")).reason))
  {
    var d := Policy.CheckInput(p, query);
    var out := graph(GraphInput(d.sanitized));
    OutputGateOnlyResponse(p, out);
  }

  /**
   * `run_sia` fails on `out["response"]` exactly when the graph returns no
   * response and the output check lets the empty string through.
   */
  lemma MissingResponse(p: Policy.Policy, graph: State -> State, query: string, n: int)
    requires n >= 0
    ensures Reply(p, graph, query, n) == Failure(KeyError) <==>
      && Policy.CheckInput(p, query).allowed
      && graph(GraphInput(Policy.Sanitize(query))).response.None?
      && Policy.CheckOutput(p, "").allowed
  {
  }

  /**
   * A successful run on an accepted query adds exactly two turns, the
   * sanitised query as the user's and then the final response as the
   * assistant's; with room for two turns they are the newest two.
   */
  lemma TwoTurnsInOrder(p: Policy.Policy, graph: State -> State, query: string,
                        before: seq<Turn>, n: int)
    requires n >= 0 && Policy.CheckInput(p, query).allowed && Reply(p, graph, query, n).Success?
    ensures var user := Turn("user", Policy.Sanitize(query));
      var assistant := Turn("assistant", Reply(p, graph, query, n).value.response.value);
      var turns := TurnsAfter(p, graph, query, before, n);
      && turns == Window(before + [user, assistant], n)
      && (n >= 2 ==> |turns| >= 2 && turns[|turns| - 2..] == [user, assistant])
  {
    var d := Policy.CheckInput(p, query);
    var out := Gated(p, graph(GraphInput(d.sanitized)));
    AddTwo(before, Turn("user", d.sanitized), Turn("assistant", out.response.value), n);
  }

  /**
   * The session's history (`max_turns=18`) never raises `IndexError`, and a
   * history within 18 turns stays within 18 turns whatever the query.
   */
  lemma SessionHistoryBounded(p: Policy.Policy, graph: State -> State, query: string, before: seq<Turn>)
    requires |before| <= SessionMaxTurns
    ensures Reply(p, graph, query, SessionMaxTurns) != Failure(IndexError)
    ensures |TurnsAfter(p, graph, query, before, SessionMaxTurns)| <= SessionMaxTurns
  {
    var d := Policy.CheckInput(p, query);
    if d.allowed {
      var withUser := Window(before + [Turn("user", d.sanitized)], SessionMaxTurns);
      WindowShape(before + [Turn("user", d.sanitized)], SessionMaxTurns);
      var out := Gated(p, graph(GraphInput(d.sanitized)));
      if out.response.Some? {
        WindowShape(withUser + [Turn("assistant", out.response.value)], SessionMaxTurns);
      }
    }
  }

  /** Two adds in a row keep the newest `n` of the old turns and the two new ones, the new ones last. */
  lemma AddTwo(before: seq<Turn>, user: Turn, assistant: Turn, n: int)
    requires n >= 0
    ensures var w := Window(Window(before + [user], n) + [assistant], n);
      && w == Window(before + [user, assistant], n)
      && (n >= 2 ==> |w| >= 2 && w[|w| - 2..] == [user, assistant])
  {
    WindowStep(before + [user], assistant, n);
    assert before + [user] + [assistant] == before + [user, assistant];
    var all := before + [user, assistant];
    if n >= 2 {
      var w := Window(all, n);
      assert |w| >= 2 && w == all[|all| - |w|..];
      assert w[|w| - 2..] == all[|all| - 2..];
    }
  }
}
