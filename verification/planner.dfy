/**
 * `GraphOfThoughtsPlanner.plan` (metacognition/graph_of_thoughts/planner.py):
 * a bounded breadth search that grows an append-only list of thoughts from the
 * objective, keeps the best children of every frontier node, and merges the
 * best leaves of the last level into one synthesis thought.
 *
 * The planner's scorer is the parameter `scorer` (the default scorer is
 * `Scoring.Score`), and the `:.2f` rendering of a score is the parameter `fmt`.
 * Ids come from a counter: the root takes `start`, and every later thought the
 * next number, so the thought at position `i` of `explored` has id `start + i`.
 */
module Planner {
  import opened Wrappers
  import opened Text
  import opened Thoughts
  import opened Transformations

  /** The four prompt templates, in order. */
  const Prompts: seq<string> := [
    "Strategy A: Decompose objective '{seed}' into 3 milestones with risks + mitigations.",
    "Strategy B: Identify leverage points + constraints for '{seed}', propose a 2-week plan.",
    "Strategy C: Assume budget limits. Propose a minimal viable path for '{seed}' with guardrails.",
    "Strategy D: Red-team failure modes for '{seed}' and propose prevention controls."
  ]

  /** `GoTPlanResult`. */
  datatype PlanResult = PlanResult(final: Thought, explored: seq<Thought>)

  // ---------------------------------------------------------------------
  // The stable descending sort `sorted(xs, key=score, reverse=True)`.
  // ---------------------------------------------------------------------

  predicate SortedDesc(xs: seq<Thought>) {
    forall i, j :: 0 <= i < j < |xs| ==> xs[i].score >= xs[j].score
  }

  /** The thoughts of `xs` whose score is `v`, in their order in `xs`. */
  function WithScore(xs: seq<Thought>, v: real): (r: seq<Thought>)
    ensures |r| <= |xs|
  {
    if xs == [] then []
    else (if xs[0].score == v then [xs[0]] else []) + WithScore(xs[1..], v)
  }

  /**
   * Inserts `x` in front of the first element that does not beat it, so `x`
   * stays ahead of the equal elements that follow it.
   */
  function Insert(x: Thought, ys: seq<Thought>): (r: seq<Thought>)
    ensures |r| == |ys| + 1
  {
    if ys == [] || ys[0].score <= x.score then [x] + ys
    else [ys[0]] + Insert(x, ys[1..])
  }

  /** `sorted(xs, key=lambda n: n.score, reverse=True)`, as an insertion sort. */
  function SortDesc(xs: seq<Thought>): (r: seq<Thought>)
    ensures |r| == |xs|
  {
    if xs == [] then [] else Insert(xs[0], SortDesc(xs[1..]))
  }

  lemma {:induction false} InsertPermutes(x: Thought, ys: seq<Thought>)
    ensures multiset(Insert(x, ys)) == multiset(ys) + multiset{x}
  {
    if ys != [] && ys[0].score > x.score {
      InsertPermutes(x, ys[1..]);
      assert ys == [ys[0]] + ys[1..];
    }
  }

  /** The planner's sort is a permutation of its input. */
  lemma {:induction false} SortDescPermutes(xs: seq<Thought>)
    ensures multiset(SortDesc(xs)) == multiset(xs)
  {
    if xs != [] {
      SortDescPermutes(xs[1..]);
      InsertPermutes(xs[0], SortDesc(xs[1..]));
      assert xs == [xs[0]] + xs[1..];
    }
  }

  lemma {:induction false} InsertSorted(x: Thought, ys: seq<Thought>)
    requires SortedDesc(ys)
    ensures SortedDesc(Insert(x, ys))
  {
    if ys != [] && ys[0].score > x.score {
      var t := Insert(x, ys[1..]);
      var r := [ys[0]] + t;
      assert Insert(x, ys) == r;
      InsertSorted(x, ys[1..]);
      InsertPermutes(x, ys[1..]);
      forall j | 0 <= j < |t| ensures ys[0].score >= t[j].score {
        HeadBeatsInserted(x, ys, t, j);
      }
      forall i, j | 0 <= i < j < |r| ensures r[i].score >= r[j].score {
        if i > 0 {
          assert r[i] == t[i - 1] && r[j] == t[j - 1];
        } else {
          assert r[j] == t[j - 1];
        }
      }
    }
  }

  lemma HeadBeatsInserted(x: Thought, ys: seq<Thought>, t: seq<Thought>, j: int)
    requires SortedDesc(ys) && ys != [] && ys[0].score > x.score
    requires multiset(t) == multiset(ys[1..]) + multiset{x}
    requires 0 <= j < |t|
    ensures ys[0].score >= t[j].score
  {
    assert t[j] in multiset(t);
    if t[j] != x {
      assert t[j] in multiset(ys[1..]);
      var q :| 0 <= q < |ys[1..]| && ys[1..][q] == t[j];
      assert ys[1 + q] == t[j];
    }
  }

  lemma {:induction false} InsertWithScore(x: Thought, ys: seq<Thought>, v: real)
    ensures WithScore(Insert(x, ys), v) == (if x.score == v then [x] else []) + WithScore(ys, v)
  {
    var r := Insert(x, ys);
    if ys == [] || ys[0].score <= x.score {
      assert r == [x] + ys && r[0] == x && r[1..] == ys;
    } else {
      var t := Insert(x, ys[1..]);
      assert r == [ys[0]] + t && r[0] == ys[0] && r[1..] == t;
      InsertWithScore(x, ys[1..], v);
      var head := if ys[0].score == v then [ys[0]] else [];
      assert WithScore(r, v) == head + WithScore(t, v);
      assert WithScore(ys, v) == head + WithScore(ys[1..], v);
      if x.score == v {
        assert head == [];
      }
    }
  }

  /** The planner's sort orders by descending score. */
  lemma {:induction false} SortDescSorted(xs: seq<Thought>)
    ensures SortedDesc(SortDesc(xs))
  {
    if xs != [] {
      SortDescSorted(xs[1..]);
      InsertSorted(xs[0], SortDesc(xs[1..]));
    }
  }

  /** The planner's sort is stable: the thoughts of any one score keep their order. */
  lemma {:induction false} SortDescStable(xs: seq<Thought>, v: real)
    ensures WithScore(SortDesc(xs), v) == WithScore(xs, v)
  {
    if xs != [] {
      SortDescStable(xs[1..], v);
      InsertWithScore(xs[0], SortDesc(xs[1..]), v);
    }
  }

  // ---------------------------------------------------------------------
  // Shape of the search.
  // ---------------------------------------------------------------------

  function Pow(k: nat, n: nat): nat {
    if n == 0 then 1 else k * Pow(k, n - 1)
  }

  /** `k^1 + ... + k^n`. */
  function SumPow(k: nat, n: nat): nat {
    if n == 0 then 0 else SumPow(k, n - 1) + Pow(k, n)
  }

  /**
   * Number of thoughts added by `n` levels when each frontier thought gets
   * `k` children and keeps `m` of them: `k * (1 + m + ... + m^(n-1))`.
   */
  function Grown(k: nat, m: nat, n: nat): nat {
    if n == 0 then 0 else Grown(k, m, n - 1) + k * Pow(m, n - 1)
  }

  lemma PowOfZero(n: nat)
    requires n >= 1
    ensures Pow(0, n) == 0
  {
  }

  /** When nothing is dropped the levels grow geometrically. */
  lemma {:induction false} GrownGeometric(k: nat, n: nat)
    ensures Grown(k, k, n) == SumPow(k, n)
  {
    if n > 0 {
      GrownGeometric(k, n - 1);
    }
  }

  /** The number of children per frontier thought: `len(prompts[:width])`. */
  function Branching(width: int): nat {
    |Take(Prompts, width)|
  }

  /** The number of children a frontier thought keeps: `len(sorted(children)[:width])`. */
  function Kept(width: int): nat {
    SliceLen(Branching(width), width)
  }

  /** The number of levels `range(depth)` runs. */
  function Levels(depth: int): nat {
    if depth < 0 then 0 else depth
  }

  /** For a non-negative width every child is kept: there are at most 4 of them. */
  lemma KeptAll(width: int)
    requires width >= 0
    ensures Branching(width) == Kept(width) == (if width < 4 then width else 4)
  {
  }

  /** `s` is the content `generator(node, prompts)` gives some child of a thought with content `c`. */
  predicate IsChildContent(s: string, c: string, prompts: seq<string>) {
    exists p :: 0 <= p < |prompts| && s == FormatSeed(prompts[p], c)
  }

  /**
   * `t` is a generated and scored child of `parent`: it points to the parent,
   * its content is one of `prompts` applied to the parent's content, and its
   * score is the scorer's verdict on that content.
   */
  ghost predicate ChildOf(t: Thought, parent: Thought, prompts: seq<string>, scorer: string -> real) {
    && t.parentId == Some(parent.id)
    && IsChildContent(t.content, parent.content, prompts)
    && t.score == scorer(t.content)
    && t.meta == map[]
  }

  /** Position `i` of `e` holds a child of an earlier thought of `e`. */
  ghost predicate ChildAt(e: seq<Thought>, start: NodeId, i: int, prompts: seq<string>, scorer: string -> real)
    requires 0 <= i < |e|
  {
    && e[i].parentId.Some?
    && start <= e[i].parentId.value < start + i
    && ChildOf(e[i], e[e[i].parentId.value - start], prompts, scorer)
  }

  /** The thought at position `i` of `e` has id `start + i`. */
  ghost predicate IdAt(e: seq<Thought>, start: NodeId, i: int)
    requires 0 <= i < |e|
  {
    e[i].id == start + i
  }

  /** The explored list while the search runs: ids by position, every later thought a child. */
  ghost predicate Arena(e: seq<Thought>, start: NodeId, prompts: seq<string>, scorer: string -> real) {
    && |e| >= 1
    && e[0].parentId.None?
    && (forall i :: 0 <= i < |e| ==> IdAt(e, start, i))
    && (forall i :: 1 <= i < |e| ==> ChildAt(e, start, i, prompts, scorer))
  }

  /** `front[f]` is the thought stored at its id in `e`. */
  ghost predicate StoredAt(front: seq<Thought>, e: seq<Thought>, start: NodeId, f: int)
    requires 0 <= f < |front|
  {
    start <= front[f].id < start + |e| && e[front[f].id - start] == front[f]
  }

  /** Every thought of `front` is the thought stored at its id in `e`. */
  ghost predicate Within(front: seq<Thought>, e: seq<Thought>, start: NodeId) {
    forall f :: 0 <= f < |front| ==> StoredAt(front, e, start, f)
  }

  /** Every parent reference points to an earlier thought of `e`. */
  ghost predicate ParentsFirst(e: seq<Thought>, start: NodeId) {
    forall i :: 0 <= i < |e| && e[i].parentId.Some? ==> start <= e[i].parentId.value < start + i
  }

  // ---------------------------------------------------------------------
  // The search.
  // ---------------------------------------------------------------------

  /** Every thought of `xs` with its score replaced by the scorer's verdict on its content. */
  function Scored(xs: seq<Thought>, scorer: string -> real): (r: seq<Thought>)
    ensures |r| == |xs|
  {
    seq(|xs|, i requires 0 <= i < |xs| => xs[i].(score := scorer(xs[i].content)))
  }

  /** `for c in children: c.score = self.scorer.score(c.content)`. */
  method ScoreAll(children: seq<Thought>, scorer: string -> real) returns (scored: seq<Thought>)
    ensures scored == Scored(children, scorer)
  {
    scored := children;
    for i := 0 to |children|
      invariant |scored| == |children|
      invariant forall j :: 0 <= j < i ==> scored[j] == children[j].(score := scorer(children[j].content))
      invariant forall j :: i <= j < |children| ==> scored[j] == children[j]
    {
      scored := scored[i := scored[i].(score := scorer(scored[i].content))];
    }
  }

  /**
   * The children `generator` makes of `node` once the scorer has run over
   * them: one per prompt, in prompt order, with ids from `next`.
   */
  function Children(node: Thought, prompts: seq<string>, scorer: string -> real, next: NodeId): (r: seq<Thought>)
    ensures |r| == |prompts|
    decreases |prompts|
  {
    if prompts == [] then []
    else
      var content := FormatSeed(prompts[0], node.content);
      [Thought(content, Some(node.id), next, scorer(content), map[])] + Children(node, prompts[1..], scorer, next + 1)
  }

  /**
   * Child `c` is what prompt `c` makes of `node`: it points to `node`, holds
   * the prompt formatted with the node's content and the scorer's verdict on
   * that, and has the id `next + c`.
   */
  lemma {:induction false} ChildrenAt(node: Thought, prompts: seq<string>, scorer: string -> real, next: NodeId, c: nat)
    requires c < |prompts|
    ensures var content := FormatSeed(prompts[c], node.content);
            Children(node, prompts, scorer, next)[c] == Thought(content, Some(node.id), next + c, scorer(content), map[])
    decreases c
  {
    if c > 0 {
      ChildrenAt(node, prompts[1..], scorer, next + 1, c - 1);
    }
  }

  /** Generating the children and then scoring them, as `plan` does, gives `Children`. */
  lemma ChildrenScored(node: Thought, prompts: seq<string>, scorer: string -> real, next: NodeId)
    ensures Children(node, prompts, scorer, next) == Scored(Generate(node, prompts, next), scorer)
  {
    var a := Children(node, prompts, scorer, next);
    var b := Scored(Generate(node, prompts, next), scorer);
    forall c | 0 <= c < |prompts| ensures a[c] == b[c] {
      ChildrenAt(node, prompts, scorer, next, c);
    }
  }

  /**
   * The children one level generates, grouped by frontier thought: group `j`
   * holds the scored children of `front[j]`, one per prompt in prompt order,
   * with ids counted on from `next` in generation order.
   */
  function LevelGroups(front: seq<Thought>, prompts: seq<string>, scorer: string -> real, next: NodeId)
    : (gs: seq<seq<Thought>>)
    ensures |gs| == |front|
  {
    if front == [] then []
    else [Children(front[0], prompts, scorer, next)] + LevelGroups(front[1..], prompts, scorer, next + |prompts|)
  }

  /**
   * Child `c` of group `j` is the scored child that prompt `c` makes of
   * `front[j]`: it points to `front[j]`, holds the prompt formatted with its
   * content and the scorer's verdict on that, and has the id
   * `next + len(prompts) * j + c`.
   */
  lemma {:induction false} LevelGroupsChild(front: seq<Thought>, prompts: seq<string>, scorer: string -> real,
                                         next: NodeId, j: nat, c: nat)
    requires j < |front| && c < |prompts|
    ensures |LevelGroups(front, prompts, scorer, next)[j]| == |prompts|
    ensures var content := FormatSeed(prompts[c], front[j].content);
            LevelGroups(front, prompts, scorer, next)[j][c]
              == Thought(content, Some(front[j].id), next + |prompts| * j + c, scorer(content), map[])
    decreases |front|
  {
    if j > 0 {
      LevelGroupsChild(front[1..], prompts, scorer, next + |prompts|, j - 1, c);
      MulStep(|prompts|, j);
    } else {
      ChildrenAt(front[0], prompts, scorer, next, c);
    }
  }

  /** The concatenation of `groups`. */
  function Flatten(groups: seq<seq<Thought>>): seq<Thought> {
    if groups == [] then [] else groups[0] + Flatten(groups[1..])
  }

  /** The concatenation of the best `width` thoughts of every group, as the inner loop keeps them. */
  function KeepBest(groups: seq<seq<Thought>>, width: int): seq<Thought> {
    if groups == [] then [] else Take(SortDesc(groups[0]), width) + KeepBest(groups[1..], width)
  }

  /**
   * The groups still to come from `front[j]` on: the next one is `front[j]`'s
   * children from `next`, then the rest from `next + len(prompts)`.
   */
  lemma GroupsStep(front: seq<Thought>, j: nat, prompts: seq<string>, scorer: string -> real, next: NodeId, width: int)
    requires j < |front|
    ensures var children := Children(front[j], prompts, scorer, next);
      var rest := LevelGroups(front[j + 1..], prompts, scorer, next + |prompts|);
      && Flatten(LevelGroups(front[j..], prompts, scorer, next)) == children + Flatten(rest)
      && KeepBest(LevelGroups(front[j..], prompts, scorer, next), width) == Take(SortDesc(children), width) + KeepBest(rest, width)
  {
    assert front[j..][0] == front[j] && front[j..][1..] == front[j + 1..];
  }

  /**
   * One level of the search (the body of `for _ in range(depth)`): every
   * frontier thought gets its children appended to `explored`, and its best
   * `width` children join the next frontier.
   */
  method ExpandLevel(front: seq<Thought>, explored: seq<Thought>, prompts: seq<string>, width: int,
                     scorer: string -> real, start: NodeId, next: NodeId)
    returns (explored': seq<Thought>, front': seq<Thought>, next': NodeId, added: seq<Thought>)
    requires Arena(explored, start, prompts, scorer) && next == start + |explored|
    requires Within(front, explored, start)
    ensures SearchState(explored', front') == NextLevel(SearchState(explored, front), prompts, width, scorer, start)
    ensures Arena(explored', start, prompts, scorer) && next' == start + |explored'|
    ensures explored' == explored + added
    ensures |added| == |prompts| * |front|
    ensures |front'| == SliceLen(|prompts|, width) * |front|
    ensures Within(front', explored', start)
    ensures multiset(front') <= multiset(added)
    ensures width >= |prompts| ==> multiset(front') == multiset(added)
  {
    added, front', next' := GenerateLevel(front, prompts, width, scorer, next);
    explored' := explored + added;
    LevelFacts(explored, front, added, front', prompts, width, scorer, start);
  }

  /**
   * The inner loop `for node in frontier` of one level: the children of every
   * frontier thought in turn, and the best `width` of each, with ids counted
   * on from `next`.
   */
  method GenerateLevel(front: seq<Thought>, prompts: seq<string>, width: int, scorer: string -> real, next: NodeId)
    returns (added: seq<Thought>, kept: seq<Thought>, next': NodeId)
    ensures added == Flatten(LevelGroups(front, prompts, scorer, next))
    ensures kept == KeepBest(LevelGroups(front, prompts, scorer, next), width)
    ensures next' == next + |added|
  {
    kept := [];
    next' := next;
    added := [];
    for j := 0 to |front|
      invariant next' == next + |added|
      invariant added + Flatten(LevelGroups(front[j..], prompts, scorer, next')) == Flatten(LevelGroups(front, prompts, scorer, next))
      invariant kept + KeepBest(LevelGroups(front[j..], prompts, scorer, next'), width) == KeepBest(LevelGroups(front, prompts, scorer, next), width)
    {
      LevelStep(front, j, added, kept, prompts, width, scorer, next, next');
      added, kept, next' := ExpandNode(front[j], added, kept, prompts, width, scorer, next');
    }
    assert front[|front|..] == [];
    assert added + [] == added && kept + [] == kept;
  }

  /** One more frontier thought moves its group from the groups to come to the thoughts done. */
  lemma LevelStep(front: seq<Thought>, j: nat, added: seq<Thought>, kept: seq<Thought>,
                  prompts: seq<string>, width: int, scorer: string -> real, first: NodeId, next: NodeId)
    requires j < |front|
    requires added + Flatten(LevelGroups(front[j..], prompts, scorer, next)) == Flatten(LevelGroups(front, prompts, scorer, first))
    requires kept + KeepBest(LevelGroups(front[j..], prompts, scorer, next), width) == KeepBest(LevelGroups(front, prompts, scorer, first), width)
    ensures var children := Children(front[j], prompts, scorer, next);
      var rest := LevelGroups(front[j + 1..], prompts, scorer, next + |prompts|);
      && (added + children) + Flatten(rest) == Flatten(LevelGroups(front, prompts, scorer, first))
      && (kept + Take(SortDesc(children), width)) + KeepBest(rest, width) == KeepBest(LevelGroups(front, prompts, scorer, first), width)
  {
    var children := Children(front[j], prompts, scorer, next);
    var rest := LevelGroups(front[j + 1..], prompts, scorer, next + |prompts|);
    GroupsStep(front, j, prompts, scorer, next, width);
    AppendAssoc(added, children, Flatten(rest));
    AppendAssoc(kept, Take(SortDesc(children), width), KeepBest(rest, width));
  }

  /** What one level's generated and kept thoughts amount to, as `ExpandLevel` promises it. */
  lemma LevelFacts(explored: seq<Thought>, front: seq<Thought>, added: seq<Thought>, kept: seq<Thought>,
                   prompts: seq<string>, width: int, scorer: string -> real, start: NodeId)
    requires Arena(explored, start, prompts, scorer) && Within(front, explored, start)
    requires added == Flatten(LevelGroups(front, prompts, scorer, start + |explored|))
    requires kept == KeepBest(LevelGroups(front, prompts, scorer, start + |explored|), width)
    ensures Arena(explored + added, start, prompts, scorer)
    ensures |added| == |prompts| * |front|
    ensures |kept| == SliceLen(|prompts|, width) * |front|
    ensures Within(kept, explored + added, start)
    ensures multiset(kept) <= multiset(added)
    ensures width >= |prompts| ==> multiset(kept) == multiset(added)
  {
    LevelCounts(front, added, kept, prompts, width, scorer, start + |explored|);
    ArenaLevel(explored, front, prompts, scorer, start);
    WithinFromBag(kept, explored + added, added, explored, start, prompts, scorer);
  }

  /** A level adds `len(prompts)` thoughts per frontier thought and keeps some or all of them. */
  lemma LevelCounts(front: seq<Thought>, added: seq<Thought>, kept: seq<Thought>,
                    prompts: seq<string>, width: int, scorer: string -> real, next: NodeId)
    requires added == Flatten(LevelGroups(front, prompts, scorer, next))
    requires kept == KeepBest(LevelGroups(front, prompts, scorer, next), width)
    ensures |added| == |prompts| * |front|
    ensures |kept| == SliceLen(|prompts|, width) * |front|
    ensures multiset(kept) <= multiset(added)
    ensures width >= |prompts| ==> multiset(kept) == multiset(added)
  {
    var groups := LevelGroups(front, prompts, scorer, next);
    LevelGroupSizes(front, prompts, scorer, next);
    GroupSizes(groups, width, |prompts|);
    KeepBestCounts(groups, width);
    if width >= |prompts| {
      assert forall g :: 0 <= g < |groups| ==> |groups[g]| <= width;
    }
  }

  /** Every group of a level has one child per prompt. */
  lemma {:induction false} LevelGroupSizes(front: seq<Thought>, prompts: seq<string>, scorer: string -> real, next: NodeId)
    ensures forall g :: 0 <= g < |front| ==> |LevelGroups(front, prompts, scorer, next)[g]| == |prompts|
    decreases |front|
  {
    if front != [] {
      LevelGroupSizes(front[1..], prompts, scorer, next + |prompts|);
    }
  }

  /**
   * One pass of the inner loop `for node in frontier`: the children of `node`
   * are generated with ids from `next` and scored; they are appended to the
   * thoughts `added` so far and their best `width` to the next frontier `kept`.
   */
  method ExpandNode(node: Thought, added: seq<Thought>, kept: seq<Thought>,
                    prompts: seq<string>, width: int, scorer: string -> real, next: NodeId)
    returns (added': seq<Thought>, kept': seq<Thought>, next': NodeId)
    ensures added' == added + Children(node, prompts, scorer, next)
    ensures kept' == kept + Take(SortDesc(Children(node, prompts, scorer, next)), width)
    ensures next' == next + |prompts|
  {
    var children := Generate(node, prompts, next);
    children := ScoreAll(children, scorer);
    ChildrenScored(node, prompts, scorer, next);
    added' := added + children;
    next' := next + |children|;
    kept' := kept + Take(SortDesc(children), width);
  }

  /**
   * Appending one level's children to an arena keeps it an arena: every child
   * is stored at its id and points to the frontier thought it was made from.
   */
  lemma {:induction false} ArenaLevel(explored: seq<Thought>, front: seq<Thought>, prompts: seq<string>,
                                      scorer: string -> real, start: NodeId)
    requires Arena(explored, start, prompts, scorer) && Within(front, explored, start)
    ensures Arena(explored + Flatten(LevelGroups(front, prompts, scorer, start + |explored|)), start, prompts, scorer)
    decreases |front|
  {
    if front == [] {
      assert explored + [] == explored;
    } else {
      var children := Children(front[0], prompts, scorer, start + |explored|);
      ChildrenScored(front[0], prompts, scorer, start + |explored|);
      assert StoredAt(front, explored, start, 0);
      AppendChildren(explored, front[0], children, prompts, scorer, start);
      var e := explored + children;
      assert Within(front[1..], e, start) by {
        forall f | 0 <= f < |front[1..]| ensures StoredAt(front[1..], e, start, f) {
          assert front[1..][f] == front[f + 1] && StoredAt(front, explored, start, f + 1);
        }
      }
      ArenaLevel(e, front[1..], prompts, scorer, start);
      AppendAssoc(explored, children, Flatten(LevelGroups(front[1..], prompts, scorer, start + |e|)));
    }
  }

  /** `n` groups of `k` thoughts hold `k * n` thoughts, of which `SliceLen(k, width) * n` are kept. */
  lemma {:induction false} GroupSizes(groups: seq<seq<Thought>>, width: int, k: nat)
    requires forall g :: 0 <= g < |groups| ==> |groups[g]| == k
    ensures |Flatten(groups)| == k * |groups|
    ensures |KeepBest(groups, width)| == SliceLen(k, width) * |groups|
  {
    if groups != [] {
      var n := |groups|;
      GroupSizes(groups[1..], width, k);
      MulStep(k, n);
      MulStep(SliceLen(k, width), n);
    }
  }

  lemma MulStep(a: nat, n: nat)
    requires n >= 1
    ensures a * n == a * (n - 1) + a
  {
  }

  /** The kept thoughts are some of the generated ones, and all of them when `width` covers every group. */
  lemma {:induction false} KeepBestCounts(groups: seq<seq<Thought>>, width: int)
    ensures multiset(KeepBest(groups, width)) <= multiset(Flatten(groups))
    ensures (forall g :: 0 <= g < |groups| ==> |groups[g]| <= width) ==>
              multiset(KeepBest(groups, width)) == multiset(Flatten(groups))
  {
    if groups != [] {
      var first := groups[0];
      KeepBestCounts(groups[1..], width);
      TakeIsSubMultiset(SortDesc(first), width);
      SortDescPermutes(first);
      if forall g :: 0 <= g < |groups| ==> |groups[g]| <= width {
        assert |first| <= width;
        var rest := groups[1..];
        forall g | 0 <= g < |rest| ensures |rest[g]| <= width {
          assert rest[g] == groups[g + 1];
        }
        assert Take(SortDesc(first), width) == SortDesc(first);
      }
    }
  }

  /** Thoughts drawn from the tail of an arena are stored at their ids. */
  lemma WithinFromBag(front: seq<Thought>, e: seq<Thought>, added: seq<Thought>, explored: seq<Thought>,
                      start: NodeId, prompts: seq<string>, scorer: string -> real)
    requires Arena(e, start, prompts, scorer) && e == explored + added
    requires multiset(front) <= multiset(added)
    ensures Within(front, e, start)
  {
    forall f | 0 <= f < |front| ensures StoredAt(front, e, start, f) {
      assert front[f] in multiset(front);
      assert front[f] in added;
      var p :| 0 <= p < |added| && added[p] == front[f];
      assert e[|explored| + p] == front[f];
      assert IdAt(e, start, |explored| + p);
    }
  }

  lemma AppendAssoc(a: seq<Thought>, b: seq<Thought>, c: seq<Thought>)
    ensures a + b + c == a + (b + c)
  {
  }

  lemma WithinGrows(front: seq<Thought>, e: seq<Thought>, more: seq<Thought>, start: NodeId)
    requires Within(front, e, start)
    ensures Within(front, e + more, start)
  {
    forall f | 0 <= f < |front| ensures StoredAt(front, e + more, start, f) {
      assert StoredAt(front, e, start, f);
    }
  }

  /** Appending a freshly generated and scored set of children keeps the arena. */
  lemma AppendChildren(e: seq<Thought>, node: Thought, children: seq<Thought>,
                       prompts: seq<string>, scorer: string -> real, start: NodeId)
    requires Arena(e, start, prompts, scorer)
    requires start <= node.id < start + |e| && e[node.id - start] == node
    requires children == Scored(Generate(node, prompts, start + |e|), scorer)
    ensures Arena(e + children, start, prompts, scorer)
  {
    var e' := e + children;
    var g := Generate(node, prompts, start + |e|);
    forall i | 0 <= i < |e'| ensures IdAt(e', start, i) {
      if i < |e| {
        assert IdAt(e, start, i);
      } else {
        assert e'[i] == children[i - |e|];
      }
    }
    forall i | 1 <= i < |e'| ensures ChildAt(e', start, i, prompts, scorer) {
      if i < |e| {
        assert ChildAt(e, start, i, prompts, scorer);
      } else {
        var c := i - |e|;
        assert e'[i] == children[c] == g[c].(score := scorer(g[c].content));
        assert g[c] == NewThought(FormatSeed(prompts[c], node.content), Some(node.id), start + |e| + c);
        assert e'[node.id - start] == node;
        assert e'[i].content == FormatSeed(prompts[c], node.content);
      }
    }
  }

  /** Size of level `n >= 1` of the search: `k * m^(n-1)` thoughts. */
  function LevelSize(k: nat, m: nat, n: nat): nat
    requires n >= 1
  {
    k * Pow(m, n - 1)
  }

  /** The explored list and the frontier as they stand between two levels of the search. */
  datatype SearchState = SearchState(explored: seq<Thought>, frontier: seq<Thought>)

  /**
   * One level of the search: the children of every frontier thought are
   * appended to `explored`, with ids counted on from its length, and the best
   * `width` children of each thought form the next frontier.
   */
  function NextLevel(s: SearchState, prompts: seq<string>, width: int, scorer: string -> real, start: NodeId): SearchState {
    var groups := LevelGroups(s.frontier, prompts, scorer, start + |s.explored|);
    SearchState(s.explored + Flatten(groups), KeepBest(groups, width))
  }

  /**
   * `trace[n]` is the search after `n` levels: the root alone at first, then
   * each state the `NextLevel` of the one before.
   */
  ghost predicate SearchTrace(trace: seq<SearchState>, objective: string, prompts: seq<string>, width: int,
                              scorer: string -> real, start: NodeId) {
    var root := NewThought(objective, None, start);
    && |trace| >= 1
    && trace[0] == SearchState([root], [root])
    && forall n :: 1 <= n < |trace| ==> trace[n] == NextLevel(trace[n - 1], prompts, width, scorer, start)
  }

  /** The levels are a function of the objective: two traces agree wherever both are defined. */
  lemma {:induction false} SearchTraceUnique(t1: seq<SearchState>, t2: seq<SearchState>, objective: string,
                                             prompts: seq<string>, width: int, scorer: string -> real, start: NodeId, n: nat)
    requires SearchTrace(t1, objective, prompts, width, scorer, start)
    requires SearchTrace(t2, objective, prompts, width, scorer, start)
    requires n < |t1| && n < |t2|
    ensures t1[n] == t2[n]
  {
    if n > 0 {
      SearchTraceUnique(t1, t2, objective, prompts, width, scorer, start, n - 1);
      assert t1[n] == NextLevel(t1[n - 1], prompts, width, scorer, start);
      assert t2[n] == NextLevel(t2[n - 1], prompts, width, scorer, start);
    }
  }

  /** A trace extended by the next level of its last state is still a trace. */
  lemma TraceGrows(trace: seq<SearchState>, s: SearchState, objective: string, prompts: seq<string>, width: int,
                   scorer: string -> real, start: NodeId)
    requires SearchTrace(trace, objective, prompts, width, scorer, start)
    requires s == NextLevel(trace[|trace| - 1], prompts, width, scorer, start)
    ensures SearchTrace(trace + [s], objective, prompts, width, scorer, start)
  {
    var t := trace + [s];
    forall n | 1 <= n < |t| ensures t[n] == NextLevel(t[n - 1], prompts, width, scorer, start) {
      assert t[n - 1] == trace[n - 1];
    }
  }

  /**
   * The loop `for _ in range(depth)` of `plan`: `trace` holds the state after
   * each level and ends with (`explored`, `front`), so `explored` holds the root
   * and every generated child with ids counted up by position, and `front` is
   * stored in it; `lastLevel` is the last level's children, at the end of
   * `explored`.
   */
  method Search(objective: string, depth: int, width: int, prompts: seq<string>, scorer: string -> real, start: NodeId)
    returns (explored: seq<Thought>, front: seq<Thought>, next: NodeId, ghost lastLevel: seq<Thought>,
             ghost trace: seq<SearchState>)
    ensures SearchTrace(trace, objective, prompts, width, scorer, start)
    ensures |trace| == Levels(depth) + 1 && trace[Levels(depth)] == SearchState(explored, front)
    ensures Arena(explored, start, prompts, scorer) && next == start + |explored|
    ensures explored[0] == NewThought(objective, None, start)
    ensures |explored| == 1 + Grown(|prompts|, SliceLen(|prompts|, width), Levels(depth))
    ensures |front| == Pow(SliceLen(|prompts|, width), Levels(depth))
    ensures Within(front, explored, start)
    ensures Levels(depth) == 0 ==> front == [explored[0]]
    ensures Levels(depth) > 0 ==>
              && |lastLevel| == LevelSize(|prompts|, SliceLen(|prompts|, width), Levels(depth))
              && |lastLevel| < |explored|
              && explored[|explored| - |lastLevel|..] == lastLevel
              && multiset(front) <= multiset(lastLevel)
              && (width >= |prompts| ==> multiset(front) == multiset(lastLevel))
  {
    var root := NewThought(objective, None, start);
    explored := [root];
    front := [root];
    next := start + 1;
    lastLevel := [];
    trace := [SearchState(explored, front)];
    var k, m := |prompts|, SliceLen(|prompts|, width);
    var level := 0;
    while level < depth
      invariant 0 <= level <= Levels(depth)
      invariant SearchTrace(trace, objective, prompts, width, scorer, start)
      invariant |trace| == level + 1 && trace[level] == SearchState(explored, front)
      invariant Arena(explored, start, prompts, scorer) && next == start + |explored|
      invariant explored[0] == root
      invariant |explored| == 1 + Grown(k, m, level)
      invariant |front| == Pow(m, level)
      invariant Within(front, explored, start)
      invariant level == 0 ==> front == [root]
      invariant level > 0 ==>
                  && |lastLevel| == LevelSize(k, m, level)
                  && |lastLevel| < |explored|
                  && explored[|explored| - |lastLevel|..] == lastLevel
                  && multiset(front) <= multiset(lastLevel)
                  && (width >= k ==> multiset(front) == multiset(lastLevel))
    {
      ghost var before := explored;
      explored, front, next, lastLevel := ExpandLevel(front, explored, prompts, width, scorer, start, next);
      assert explored[0] == before[0];
      assert explored[|before|..] == lastLevel;
      TraceGrows(trace, SearchState(explored, front), objective, prompts, width, scorer, start);
      trace := trace + [SearchState(explored, front)];
      level := level + 1;
    }
  }

  /**
   * The end of `plan` from the state after the last level: the best
   * `max(1, width)` frontier thoughts are merged into a synthesis thought with
   * the next id, which is scored and appended to `explored`.
   */
  function Synthesis(s: SearchState, width: int, scorer: string -> real, fmt: real -> string, start: NodeId): PlanResult {
    var leaves := Take(SortDesc(s.frontier), if width < 1 then 1 else width);
    var final := Aggregate(leaves, fmt, start + |s.explored|);
    var scored := final.(score := scorer(final.content));
    PlanResult(scored, s.explored + [scored])
  }

  /** `res` is what `plan(objective, depth, width)` returns: the synthesis of the search after `depth` levels. */
  ghost predicate Planned(objective: string, depth: int, width: int, scorer: string -> real, fmt: real -> string,
                          start: NodeId, res: PlanResult) {
    exists trace :: PlannedBy(trace, objective, depth, width, scorer, fmt, start, res)
  }

  /** `trace` is the search `plan` runs and `res` its synthesis. */
  ghost predicate PlannedBy(trace: seq<SearchState>, objective: string, depth: int, width: int, scorer: string -> real,
                            fmt: real -> string, start: NodeId, res: PlanResult) {
    && SearchTrace(trace, objective, Take(Prompts, width), width, scorer, start)
    && |trace| == Levels(depth) + 1
    && res == Synthesis(trace[Levels(depth)], width, scorer, fmt, start)
  }

  /** `plan` is deterministic: one objective, depth, width and scorer give one result. */
  lemma PlannedUnique(objective: string, depth: int, width: int, scorer: string -> real, fmt: real -> string,
                      start: NodeId, r1: PlanResult, r2: PlanResult)
    requires Planned(objective, depth, width, scorer, fmt, start, r1)
    requires Planned(objective, depth, width, scorer, fmt, start, r2)
    ensures r1 == r2
  {
    var t1 :| PlannedBy(t1, objective, depth, width, scorer, fmt, start, r1);
    var t2 :| PlannedBy(t2, objective, depth, width, scorer, fmt, start, r2);
    SearchTraceUnique(t1, t2, objective, Take(Prompts, width), width, scorer, start, Levels(depth));
  }

  /**
   * `plan(objective, depth, width)`: the search of `depth` levels, then the
   * synthesis of its best leaves. `frontier` is the frontier after the last
   * level, from which the leaves are taken.
   */
  method Plan(objective: string, depth: int, width: int, scorer: string -> real,
              fmt: real -> string, start: NodeId)
    returns (res: PlanResult, next: NodeId, ghost frontier: seq<Thought>, ghost trace: seq<SearchState>)
    ensures PlannedBy(trace, objective, depth, width, scorer, fmt, start, res)
    ensures frontier == trace[Levels(depth)].frontier
    ensures var e := res.explored;
      && |e| == 2 + Grown(Branching(width), Kept(width), Levels(depth))
      && e[0] == NewThought(objective, None, start)
      && (forall i :: 0 <= i < |e| ==> e[i].id == start + i)
      && next == start + |e|
      && ParentsFirst(e, start)
      && (forall i :: 1 <= i < |e| - 1 ==> ChildAt(e, start, i, Take(Prompts, width), scorer))
      && res.final == e[|e| - 1]
    ensures |frontier| == Pow(Kept(width), Levels(depth))
    ensures Within(frontier, res.explored, start)
    ensures Levels(depth) == 0 ==> frontier == [res.explored[0]]
    ensures Levels(depth) > 0 ==>
              var e := res.explored; var last := LevelSize(Branching(width), Kept(width), Levels(depth));
              && last < |e| - 1
              && multiset(frontier) <= multiset(e[|e| - 1 - last..|e| - 1])
              && (width >= 0 ==> multiset(frontier) == multiset(e[|e| - 1 - last..|e| - 1]))
    ensures var leaves := Take(SortDesc(frontier), if width < 1 then 1 else width);
      && res.final.content == SynthesisHeader + Join("\n\n", Entries(leaves, fmt))
      && res.final.parentId == (if leaves == [] then None else leaves[0].parentId)
      && res.final.score == scorer(res.final.content)
      && res.final.meta == map[]
    ensures width == 0 && depth >= 1 ==> res.final.content == SynthesisHeader && res.final.parentId.None?
  {
    var explored, front;
    ghost var lastLevel;
    var prompts := Take(Prompts, width);
    explored, front, next, lastLevel, trace := Search(objective, depth, width, prompts, scorer, start);
    assert |prompts| == Branching(width) && SliceLen(|prompts|, width) == Kept(width);
    frontier := front;
    var leaves := Take(SortDesc(front), if width < 1 then 1 else width);
    res := Synthesis(SearchState(explored, front), width, scorer, fmt, start);
    var final := res.final;
    TakeIsSubMultiset(SortDesc(front), if width < 1 then 1 else width);
    SortDescPermutes(front);
    if width == 0 && depth >= 1 {
      assert Kept(width) == 0;
      PowOfZero(depth);
      assert leaves == [];
    }
    LeafParent(explored, front, leaves, start, prompts, scorer);
    AppendFinal(explored, final, start, prompts, scorer);
    WithinGrows(front, explored, [final], start);
    assert (explored + [final])[..|explored|] == explored;
    if Levels(depth) > 0 {
      if width >= 0 {
        KeptAll(width);
      }
      assert (explored + [final])[|explored| - |lastLevel|..|explored|] == lastLevel;
    }
    next := next + 1;
  }

  /** Appending the synthesis thought keeps ids by position and parents first. */
  lemma AppendFinal(e: seq<Thought>, final: Thought, start: NodeId, prompts: seq<string>, scorer: string -> real)
    requires Arena(e, start, prompts, scorer) && ParentsFirst(e, start)
    requires final.id == start + |e|
    requires final.parentId.Some? ==> start <= final.parentId.value < start + |e|
    ensures var e' := e + [final];
      && (forall i :: 0 <= i < |e'| ==> e'[i].id == start + i)
      && ParentsFirst(e', start)
      && (forall i :: 1 <= i < |e'| - 1 ==> ChildAt(e', start, i, prompts, scorer))
  {
    var e' := e + [final];
    forall i | 0 <= i < |e'| ensures e'[i].id == start + i {
      if i < |e| {
        assert IdAt(e, start, i);
      }
    }
    forall i | 1 <= i < |e'| - 1 ensures ChildAt(e', start, i, prompts, scorer) {
      assert ChildAt(e, start, i, prompts, scorer);
    }
  }

  /** The synthesis thought's parent is an existing thought. */
  lemma LeafParent(e: seq<Thought>, front: seq<Thought>, leaves: seq<Thought>, start: NodeId,
                   prompts: seq<string>, scorer: string -> real)
    requires Arena(e, start, prompts, scorer) && Within(front, e, start)
    requires multiset(leaves) <= multiset(front)
    ensures ParentsFirst(e, start)
    ensures leaves != [] && leaves[0].parentId.Some? ==> start <= leaves[0].parentId.value < start + |e|
  {
    forall i | 0 <= i < |e| && e[i].parentId.Some? ensures start <= e[i].parentId.value < start + i {
      assert i != 0 && ChildAt(e, start, i, prompts, scorer);
    }
    if leaves != [] && leaves[0].parentId.Some? {
      assert leaves[0] in multiset(leaves);
      assert leaves[0] in front;
      var f :| 0 <= f < |front| && front[f] == leaves[0];
      assert StoredAt(front, e, start, f);
      var i := leaves[0].id - start;
      if i > 0 {
        assert ChildAt(e, start, i, prompts, scorer);
      }
    }
  }

  /**
   * With the defaults `depth=2, width=3` the planner explores 14 thoughts:
   * the root, 3 children, 9 grandchildren and the synthesis.
   */
  lemma DefaultPlanSize()
    ensures Branching(3) == Kept(3) == 3
    ensures 2 + Grown(Branching(3), Kept(3), Levels(2)) == 14
  {
    assert Grown(3, 3, 2) == Grown(3, 3, 1) + 3 * Pow(3, 1);
  }

  /** Without pruning, `len(explored) == 2 + min(width,4)^1 + ... + min(width,4)^depth`. */
  lemma ExploredCount(depth: int, width: int)
    requires width >= 0
    ensures 2 + Grown(Branching(width), Kept(width), Levels(depth))
            == 2 + SumPow(if width < 4 then width else 4, Levels(depth))
  {
    KeptAll(width);
    GrownGeometric(Branching(width), Levels(depth));
  }
}
