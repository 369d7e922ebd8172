/**
 * The bounded conversation history (core_inference/context_manager.py):
 * a deque of (role, content) turns that forgets its oldest turns once it
 * holds more than `max_turns`, and renders itself as one prompt string.
 */
module Context {
  import opened Text

  datatype Turn = Turn(role: string, content: string)

  /** The dataclass default of `max_turns`. */
  const DefaultMaxTurns := 24

  /**
   * The newest `n` turns of `xs` (all of them when there are fewer), oldest
   * first: the eviction of `deque(maxlen=n)`, stated by `WindowShape`,
   * `WindowStep` and `ReplayIsWindow`.
   */
  function Window(xs: seq<Turn>, n: int): seq<Turn> {
    if n < 0 then [] else if |xs| <= n then xs else xs[|xs| - n..]
  }

  /** The role line of a rendered turn: `f"[{role.upper()}]"`. */
  function RoleTag(role: string): (r: string)
    ensures |r| == |role| + 2 && r[0] == '[' && r[|r| - 1] == ']'
  {
    "[" + Upper(role) + "]"
  }

  /** A rendered turn without its final newline: the role line, then the stripped content. */
  function TurnText(t: Turn): (r: string)
    ensures |r| > 0 && r[0] == '['
    ensures Strip(t.content) != "" ==> r[|r| - 1] == Strip(t.content)[|Strip(t.content)| - 1]
  {
    RoleTag(t.role) + "\n" + Strip(t.content)
  }

  /** One rendered turn: `f"[{role.upper()}]\n{content.strip()}\n"`. */
  function Block(t: Turn): string {
    TurnText(t) + "\n"
  }

  function Blocks(ts: seq<Turn>): (r: seq<string>)
    ensures |r| == |ts| && forall i :: 0 <= i < |ts| ==> r[i] == Block(ts[i])
  {
    seq(|ts|, i requires 0 <= i < |ts| => Block(ts[i]))
  }

  /** What `render` returns for the turns `ts`. */
  function Rendered(ts: seq<Turn>): (r: string)
    ensures r == [] || (!IsSpace(r[0]) && !IsSpace(r[|r| - 1]))
  {
    Strip(Join("\n", Blocks(ts)))
  }

  class ContextManager {
    var maxTurns: int
    var turns: seq<Turn>

    constructor(maxTurns: int)
      ensures this.maxTurns == maxTurns && turns == []
    {
      this.maxTurns := maxTurns;
      turns := [];
    }

    /**
     * `add`: append the turn, then drop turns from the front while there are
     * more than `maxTurns`. With a negative `maxTurns` the source empties the
     * deque and then fails on `popleft()` of an empty deque (IndexError);
     * `raised` reports that failure.
     */
    method Add(role: string, content: string) returns (raised: bool)
      modifies this
      ensures maxTurns == old(maxTurns)
      ensures !raised <==> maxTurns >= 0
      ensures turns == Window(old(turns) + [Turn(role, content)], maxTurns)
    {
      turns := turns + [Turn(role, content)];
      ghost var all := turns;
      raised := false;
      while |turns| > maxTurns
        invariant maxTurns == old(maxTurns)
        invariant |turns| <= |all| && turns == all[|all| - |turns|..]
        invariant maxTurns >= 0 && |all| > maxTurns ==> |turns| >= maxTurns
        invariant maxTurns >= 0 && |all| <= maxTurns ==> turns == all
        decreases |turns|
      {
        if turns == [] {
          raised := true;
          return;
        }
        turns := turns[1..];
      }
    }

    /** `render`: one block per turn, oldest first, joined by newlines and stripped. */
    method Render() returns (s: string)
      ensures s == Rendered(turns)
    {
      var ts := turns;
      var out: seq<string> := [];
      for i := 0 to |ts|
        invariant out == Blocks(ts[..i])
      {
        assert ts[..i + 1] == ts[..i] + [ts[i]];
        out := out + [Block(ts[i])];
      }
      assert ts[..|ts|] == ts;
      s := Strip(Join("\n", out));
    }
  }

  // ---------------------------------------------------------------------
  // Properties of the window.
  // ---------------------------------------------------------------------

  /**
   * The window holds `min(|xs|, n)` turns, taken from the end of `xs` in
   * their original order; when `n >= 1` the newest turn is last.
   */
  lemma WindowShape(xs: seq<Turn>, n: int)
    requires n >= 0
    ensures var w := Window(xs, n);
      && |w| == (if |xs| <= n then |xs| else n)
      && w == xs[|xs| - |w|..]
      && (n >= 1 && xs != [] ==> w[|w| - 1] == xs[|xs| - 1])
  {
  }

  /** A history with the default `max_turns` of 24 keeps exactly the newest 24 turns once it has more. */
  lemma DefaultKeepsNewest(xs: seq<Turn>)
    requires |xs| > DefaultMaxTurns
    ensures |Window(xs, DefaultMaxTurns)| == 24
    ensures Window(xs, DefaultMaxTurns) == xs[|xs| - 24..]
  {
  }

  /** Below capacity nothing is evicted: the turn is appended. */
  lemma AddBelowCapacity(xs: seq<Turn>, t: Turn, n: int)
    requires |xs| < n
    ensures Window(xs + [t], n) == xs + [t]
  {
  }

  /** Evicting before or after an append gives the same window. */
  lemma {:induction false} WindowStep(xs: seq<Turn>, t: Turn, n: int)
    requires n >= 0
    ensures Window(Window(xs, n) + [t], n) == Window(xs + [t], n)
  {
    var w := Window(xs, n);
    if |xs| > n {
      assert w + [t] == (xs + [t])[|xs| - n..];
      if n > 0 {
        assert (w + [t])[|w + [t]| - n..] == (xs + [t])[|xs + [t]| - n..];
      }
    }
  }

  /** The turns after adding every element of `ts`, one `add` at a time, to `start`. */
  function Replay(start: seq<Turn>, ts: seq<Turn>, n: int): seq<Turn>
    decreases |ts|
  {
    if ts == [] then start else Window(Replay(start, ts[..|ts| - 1], n) + [ts[|ts| - 1]], n)
  }

  /** Adding turns one at a time to a context within capacity keeps the newest `n` of all of them. */
  lemma {:induction false} ReplayIsWindow(start: seq<Turn>, ts: seq<Turn>, n: int)
    requires n >= 0 && |start| <= n
    ensures Replay(start, ts, n) == Window(start + ts, n)
    decreases |ts|
  {
    if ts == [] {
      assert start + ts == start;
    } else {
      var init, t := ts[..|ts| - 1], ts[|ts| - 1];
      ReplayIsWindow(start, init, n);
      WindowStep(start + init, t, n);
      assert start + init + [t] == start + ts by {
        assert init + [t] == ts;
      }
    }
  }

  /** Evicting first and then appending more turns gives the same window. */
  lemma {:induction false} WindowAppend(xs: seq<Turn>, more: seq<Turn>, n: int)
    requires n >= 0
    ensures Window(Window(xs, n) + more, n) == Window(xs + more, n)
    decreases |more|
  {
    if more == [] {
      assert Window(xs, n) + more == Window(xs, n);
      assert xs + more == xs;
    } else {
      var init := more[..|more| - 1];
      var t := more[|more| - 1];
      WindowAppend(xs, init, n);
      assert Window(xs, n) + more == (Window(xs, n) + init) + [t];
      assert xs + more == (xs + init) + [t];
      WindowStep(Window(xs, n) + init, t, n);
      WindowStep(xs + init, t, n);
    }
  }

  /** Adding `n + 5` turns to an empty context leaves exactly the last `n`, in order. */
  lemma OverfillKeepsNewest(ts: seq<Turn>, n: int)
    requires n >= 0 && |ts| == n + 5
    ensures Replay([], ts, n) == ts[5..]
  {
    ReplayIsWindow([], ts, n);
    assert [] + ts == ts;
  }

  // ---------------------------------------------------------------------
  // Properties of rendering.
  // ---------------------------------------------------------------------

  /**
   * Every turn shows up in the rendering: its upper-cased role in brackets,
   * followed on the next line by its stripped content when that is not blank.
   */
  lemma {:induction false} RenderedShowsTurn(ts: seq<Turn>, k: nat)
    requires k < |ts|
    ensures Contains(Rendered(ts), RoleTag(ts[k].role))
    ensures Strip(ts[k].content) != "" ==> Contains(Rendered(ts), TurnText(ts[k]))
  {
    var t := ts[k];
    BlockParts(t);
    RenderedKeeps(ts, k, RoleTag(t.role));
    if Strip(t.content) != "" {
      RenderedKeeps(ts, k, TurnText(t));
    }
  }

  /** Text inside one block that starts and ends with a non-space survives into the rendering. */
  lemma RenderedKeeps(ts: seq<Turn>, k: nat, x: string)
    requires k < |ts| && Contains(Block(ts[k]), x)
    requires |x| > 0 && !IsSpace(x[0]) && !IsSpace(x[|x| - 1])
    ensures Contains(Rendered(ts), x)
  {
    var joined := Join("\n", Blocks(ts));
    JoinContainsParts("\n", Blocks(ts), k);
    ContainsTransitive(joined, Blocks(ts)[k], x);
    StripKeepsInner(joined, x);
  }

  /** A block holds its role line, and the role line followed by the stripped content. */
  lemma BlockParts(t: Turn)
    ensures Contains(Block(t), RoleTag(t.role))
    ensures Contains(Block(t), TurnText(t))
  {
    var tag, body := RoleTag(t.role), "\n" + Strip(t.content);
    assert TurnText(t) == tag + body;
    assert Block(t) == tag + body + "\n";
    ContainsPrefixes(tag, body, "\n");
  }
}
