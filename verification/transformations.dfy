/**
 * `generator` and `aggregator` (metacognition/graph_of_thoughts/transformations.py).
 */
module Transformations {
  import opened Wrappers
  import opened Text
  import opened Thoughts

  const SeedField := "{seed}"

  /**
   * `template.format(seed=value)` for templates whose only replacement field
   * is `{seed}`: every `{seed}` becomes `value`, every other character stays
   * (`FormatSeedPlain`, `FormatSeedSplice`).
   */
  function FormatSeed(template: string, value: string): string
    decreases |template|
  {
    if |template| >= |SeedField| && template[..|SeedField|] == SeedField then
      value + FormatSeed(template[|SeedField|..], value)
    else if template == [] then []
    else [template[0]] + FormatSeed(template[1..], value)
  }

  /** A text without `{` has no field to replace. */
  lemma {:induction false} FormatSeedPlain(text: string, value: string)
    requires '{' !in text
    ensures FormatSeed(text, value) == text
    decreases |text|
  {
    if text != [] {
      assert text[0] != '{';
      FormatSeedPlain(text[1..], value);
    }
  }

  /** A template with a single `{seed}` field gets `value` spliced in its place. */
  lemma {:induction false} FormatSeedSplice(pre: string, post: string, value: string)
    requires '{' !in pre && '{' !in post
    ensures FormatSeed(pre + SeedField + post, value) == pre + value + post
    decreases |pre|
  {
    var t := pre + SeedField + post;
    if pre == [] {
      assert t == SeedField + post && t[..|SeedField|] == SeedField && t[|SeedField|..] == post;
      FormatSeedPlain(post, value);
    } else {
      assert t[0] == pre[0] && pre[0] != '{';
      assert t[1..] == pre[1..] + SeedField + post;
      FormatSeedSplice(pre[1..], post, value);
      assert !(|t| >= |SeedField| && t[..|SeedField|] == SeedField) by {
        assert SeedField[0] == '{';
      }
      assert FormatSeed(t, value) == [t[0]] + FormatSeed(t[1..], value);
      assert [pre[0]] + (pre[1..] + value + post) == pre + value + post;
    }
  }

  /**
   * `generator(seed, prompts)`: one fresh child per prompt, in prompt order,
   * each a child of `seed`, its content the prompt formatted with the seed's
   * content; the ids are `next`, `next + 1`, ... in that order.
   */
  function Generate(seed: Thought, prompts: seq<string>, next: NodeId): (children: seq<Thought>)
    ensures |children| == |prompts|
    ensures forall i :: 0 <= i < |prompts| ==>
              children[i] == NewThought(FormatSeed(prompts[i], seed.content), Some(seed.id), next + i)
    decreases |prompts|
  {
    if prompts == [] then []
    else [NewThought(FormatSeed(prompts[0], seed.content), Some(seed.id), next)]
         + Generate(seed, prompts[1..], next + 1)
  }

  /** `f"- ({n.score:.2f}) {n.content}"`, with the score formatting given as `fmt`. */
  function Entry(n: Thought, fmt: real -> string): string {
    "- (" + fmt(n.score) + ") " + n.content
  }

  function Entries(best: seq<Thought>, fmt: real -> string): (es: seq<string>)
    ensures |es| == |best|
    ensures forall i :: 0 <= i < |best| ==> es[i] == Entry(best[i], fmt)
  {
    seq(|best|, i requires 0 <= i < |best| => Entry(best[i], fmt))
  }

  const SynthesisHeader := "SYNTHESIS:\n"

  /**
   * `aggregator(best)`: a fresh node whose content is the header followed by
   * one entry per node joined by blank lines, and whose parent is the first
   * node's parent (none for an empty list).
   */
  function Aggregate(best: seq<Thought>, fmt: real -> string, id: NodeId): (t: Thought)
    ensures t.id == id && t.score == 0.0 && |t.meta| == 0
    ensures |t.content| >= |SynthesisHeader| && t.content[..|SynthesisHeader|] == SynthesisHeader
    ensures t.parentId == (if best == [] then None else best[0].parentId)
  {
    NewThought(SynthesisHeader + Join("\n\n", Entries(best, fmt)),
               if best == [] then None else best[0].parentId, id)
  }

  /** The synthesis of nothing is the bare header with no parent. */
  lemma AggregateEmpty(fmt: real -> string, id: NodeId)
    ensures Aggregate([], fmt, id).content == "SYNTHESIS:\n"
    ensures Aggregate([], fmt, id).parentId == None
  {
  }

  /** The synthesis starts with the header and quotes the content of every node it merges. */
  lemma AggregateQuotesAll(best: seq<Thought>, fmt: real -> string, id: NodeId, k: nat)
    requires k < |best|
    ensures Aggregate(best, fmt, id).content[..|SynthesisHeader|] == SynthesisHeader
    ensures Contains(Aggregate(best, fmt, id).content, best[k].content)
  {
    var es := Entries(best, fmt);
    var body := Join("\n\n", es);
    var c := Aggregate(best, fmt, id).content;
    assert c == SynthesisHeader + body;
    JoinContainsParts("\n\n", es, k);
    ContainsParts("- (" + fmt(best[k].score) + ") ", best[k].content, "");
    assert es[k] == "- (" + fmt(best[k].score) + ") " + best[k].content + "";
    ContainsTransitive(body, es[k], best[k].content);
    ContainsParts(SynthesisHeader, body, "");
    assert SynthesisHeader + body + "" == c;
    ContainsTransitive(c, body, best[k].content);
  }
}
