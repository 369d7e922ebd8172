/**
 * `HeuristicScorer.score` (metacognition/graph_of_thoughts/scoring.py):
 * 0.5, plus 0.5 per clarity word present, plus a length term, minus 1.5 per
 * risk word present. Words are found by a substring test on the lowered text.
 */
module Scoring {
  import opened Text

  const RiskWords: seq<string> := ["illegal", "bribe", "insider trading", "exfiltrate", "fraud"]
  const ClarityWords: seq<string> := ["because", "therefore", "tradeoff", "risk", "mitigation", "assumption"]

  /** `sum(1 for w in words if w in t)`: how many of the words occur in `t`. */
  function CountPresent(words: seq<string>, t: string): (n: nat)
    ensures n <= |words|
    decreases |words|
  {
    if words == [] then 0
    else (if Contains(t, words[0]) then 1 else 0) + CountPresent(words[1..], t)
  }

  /** `min(len(text) / 800.0, 1.0)`. */
  function LengthTerm(n: nat): (r: real)
    ensures 0.0 <= r <= 1.0
    ensures n >= 800 ==> r == 1.0
    ensures n < 800 ==> r == n as real / 800.0
  {
    var x := n as real / 800.0;
    if x < 1.0 then x else 1.0
  }

  function Score(text: string): (r: real)
    ensures -7.0 <= r <= 4.5
  {
    var t := Lower(text);
    0.5 + 0.5 * CountPresent(ClarityWords, t) as real + LengthTerm(|text|)
        - 1.5 * CountPresent(RiskWords, t) as real
  }

  /** No non-empty word occurs in the empty text. */
  lemma {:induction false} CountPresentEmpty(words: seq<string>)
    requires forall k :: 0 <= k < |words| ==> |words[k]| > 0
    ensures CountPresent(words, "") == 0
    decreases |words|
  {
    if words != [] {
      EmptyContainsNothing(words[0]);
      CountPresentEmpty(words[1..]);
    }
  }

  /** `score("")` is exactly 0.5. */
  lemma ScoreOfEmpty()
    ensures Score("") == 0.5
  {
    CountPresentEmpty(ClarityWords);
    CountPresentEmpty(RiskWords);
  }

  /** Counting only asks which words are present, never how often. */
  lemma {:induction false} CountPresentByPresence(words: seq<string>, a: string, b: string)
    requires forall k :: 0 <= k < |words| ==> (Contains(a, words[k]) <==> Contains(b, words[k]))
    ensures CountPresent(words, a) == CountPresent(words, b)
    decreases |words|
  {
    if words != [] {
      assert Contains(a, words[0]) <==> Contains(b, words[0]);
      CountPresentByPresence(words[1..], a, b);
    }
  }

  /**
   * Two texts of the same length in which the same risk and clarity words
   * are present score the same: each word counts once however often it
   * appears.
   */
  lemma ScoreDependsOnPresenceOnly(a: string, b: string)
    requires |a| == |b|
    requires forall w :: w in RiskWords ==> (Contains(Lower(a), w) <==> Contains(Lower(b), w))
    requires forall w :: w in ClarityWords ==> (Contains(Lower(a), w) <==> Contains(Lower(b), w))
    ensures Score(a) == Score(b)
  {
    CountPresentByPresence(RiskWords, Lower(a), Lower(b));
    CountPresentByPresence(ClarityWords, Lower(a), Lower(b));
  }

  /** Changing the case of ASCII letters never changes the score. */
  lemma ScoreIgnoresCase(a: string, b: string)
    requires Lower(a) == Lower(b)
    ensures Score(a) == Score(b)
  {
  }

  /** The count splits around the word at index `k`. */
  lemma {:induction false} CountPresentSplit(words: seq<string>, t: string, k: nat)
    requires k < |words|
    ensures CountPresent(words, t)
            == CountPresent(words[..k], t) + (if Contains(t, words[k]) then 1 else 0) + CountPresent(words[k + 1..], t)
    decreases |words|
  {
    if k == 0 {
      assert words[..0] == [] && words[1..] == words[k + 1..];
    } else {
      CountPresentSplit(words[1..], t, k - 1);
      assert words[1..][..k - 1] == words[1..k];
      assert words[1..][k - 1] == words[k];
      assert words[1..][k..] == words[k + 1..];
      CountPresentPrefix(words, t, k);
    }
  }

  lemma CountPresentPrefix(words: seq<string>, t: string, k: nat)
    requires 0 < k <= |words|
    ensures CountPresent(words[..k], t) == (if Contains(t, words[0]) then 1 else 0) + CountPresent(words[1..k], t)
  {
    assert words[..k][0] == words[0];
    assert words[..k][1..] == words[1..k];
  }

  /** With no risk word and three clarity words, a text of 800 or more characters scores exactly 3.0. */
  lemma ScoreLongClearText(text: string)
    requires |text| >= 800
    requires CountPresent(RiskWords, Lower(text)) == 0
    requires CountPresent(ClarityWords, Lower(text)) == 3
    ensures Score(text) == 3.0
  {
  }

  /** Two texts that agree on every word but the `k`-th, which only `b` contains, count one apart. */
  lemma CountPresentOneMore(words: seq<string>, a: string, b: string, k: nat)
    requires k < |words|
    requires forall j :: 0 <= j < |words| && j != k ==> (Contains(a, words[j]) <==> Contains(b, words[j]))
    requires !Contains(a, words[k]) && Contains(b, words[k])
    ensures CountPresent(words, b) == CountPresent(words, a) + 1
  {
    CountPresentSplit(words, a, k);
    CountPresentSplit(words, b, k);
    var pre, post := words[..k], words[k + 1..];
    forall j | 0 <= j < |pre| ensures Contains(a, pre[j]) <==> Contains(b, pre[j]) {
      assert pre[j] == words[j];
    }
    forall j | 0 <= j < |post| ensures Contains(a, post[j]) <==> Contains(b, post[j]) {
      assert post[j] == words[k + 1 + j];
    }
    CountPresentByPresence(pre, a, b);
    CountPresentByPresence(post, a, b);
  }

  /**
   * A risk word costs exactly 1.5, once: of two texts of the same length
   * that agree on every word except that only `b` contains risk word `k`,
   * `b` scores 1.5 less.
   */
  lemma RiskWordCostsOnce(a: string, b: string, k: nat)
    requires |a| == |b| && k < |RiskWords|
    requires forall w :: w in ClarityWords ==> (Contains(Lower(a), w) <==> Contains(Lower(b), w))
    requires forall j :: 0 <= j < |RiskWords| && j != k ==>
               (Contains(Lower(a), RiskWords[j]) <==> Contains(Lower(b), RiskWords[j]))
    requires !Contains(Lower(a), RiskWords[k]) && Contains(Lower(b), RiskWords[k])
    ensures Score(b) == Score(a) - 1.5
  {
    CountPresentOneMore(RiskWords, Lower(a), Lower(b), k);
    CountPresentByPresence(ClarityWords, Lower(a), Lower(b));
  }

  /**
   * A clarity word is worth exactly 0.5, once: of two texts of the same
   * length that agree on every word except that only `b` contains clarity
   * word `k`, `b` scores 0.5 more.
   */
  lemma ClarityWordCountsOnce(a: string, b: string, k: nat)
    requires |a| == |b| && k < |ClarityWords|
    requires forall w :: w in RiskWords ==> (Contains(Lower(a), w) <==> Contains(Lower(b), w))
    requires forall j :: 0 <= j < |ClarityWords| && j != k ==>
               (Contains(Lower(a), ClarityWords[j]) <==> Contains(Lower(b), ClarityWords[j]))
    requires !Contains(Lower(a), ClarityWords[k]) && Contains(Lower(b), ClarityWords[k])
    ensures Score(b) == Score(a) + 0.5
  {
    CountPresentOneMore(ClarityWords, Lower(a), Lower(b), k);
    CountPresentByPresence(RiskWords, Lower(a), Lower(b));
  }
}
