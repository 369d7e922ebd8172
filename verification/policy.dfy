/**
 * The L0 safety gate (l0_alignment/policy.py): text is sanitised, then
 * checked, first match wins, against ordered lists of rules.
 *
 * Every rule of the source is a regular expression of the shape
 * `\b(alt1|alt2|...)\b` compiled with IGNORECASE. A `Rule` keeps the
 * expression's text (it is quoted in the reason) and the finite list of
 * literal phrases its alternatives spell out (`passwords?` is "password"
 * and "passwords"). Such a rule matches a text when one phrase occurs in it,
 * ignoring letter case, with a word boundary on both sides.
 */
module Policy {
  import opened Wrappers
  import opened Text

  // ---------------------------------------------------------------------
  // Sanitisation
  // ---------------------------------------------------------------------

  /** The class `[\x00-\x08\x0b\x0c\x0e-\x1f]` that sanitisation deletes. */
  predicate IsStrippedControl(c: char) {
    c <= '\U{8}' || c == '\U{B}' || c == '\U{C}' || ('\U{E}' <= c <= '\U{1F}')
  }

  predicate NoControl(s: string) {
    forall i :: 0 <= i < |s| ==> !IsStrippedControl(s[i])
  }

  /** Every whitespace character is a plain space and no two are adjacent. */
  predicate SingleSpaced(s: string) {
    forall i :: 0 <= i < |s| && IsSpace(s[i]) ==> s[i] == ' ' && (i + 1 < |s| ==> !IsSpace(s[i + 1]))
  }

  /** What sanitisation promises of its result. */
  predicate Clean(s: string) {
    NoControl(s) && SingleSpaced(s) && (s == [] || (!IsSpace(s[0]) && !IsSpace(s[|s| - 1])))
  }

  /** The non-whitespace characters of `s`, in order. */
  function NonSpace(s: string): string
    decreases |s|
  {
    if s == [] then [] else (if IsSpace(s[0]) then [] else [s[0]]) + NonSpace(s[1..])
  }

  /** First step: `re.sub(r"[\x00-\x08\x0b\x0c\x0e-\x1f]", "", text)`. */
  function RemoveControl(s: string): (r: string)
    ensures NoControl(r)
    ensures |r| <= |s|
    ensures NoControl(s) ==> r == s
    decreases |s|
  {
    if s == [] then [] else (if IsStrippedControl(s[0]) then [] else [s[0]]) + RemoveControl(s[1..])
  }

  /** Skipping a run of whitespace does not change the non-whitespace characters. */
  lemma {:induction false} NonSpaceSkipsRun(s: string, k: nat)
    requires k <= |s|
    requires forall j :: 0 <= j < k ==> IsSpace(s[j])
    ensures NonSpace(s) == NonSpace(s[k..])
    decreases k
  {
    if k > 0 {
      assert s[1..][k - 1..] == s[k..];
      NonSpaceSkipsRun(s[1..], k - 1);
    }
  }

  /**
   * Second step: `re.sub(r"\s+", " ", text)` turns every whitespace run into
   * one space. `CollapseWord` and `CollapseRun` state what it does to a word
   * and to a run, and `CollapseKeeps` what its result satisfies.
   */
  function Collapse(s: string): (r: string)
    ensures |s| > 0 <==> |r| > 0
    ensures |s| > 0 ==> (if IsSpace(s[0]) then r[0] == ' ' else r[0] == s[0])
    decreases |s|
  {
    if s == [] then []
    else if IsSpace(s[0]) then [' '] + Collapse(s[SpaceRunEnd(s, 0)..])
    else [s[0]] + Collapse(s[1..])
  }

  /**
   * Collapsing leaves only single plain spaces, keeps the non-whitespace
   * characters in order and adds no control character.
   */
  lemma CollapseKeeps(s: string)
    ensures SingleSpaced(Collapse(s))
    ensures NonSpace(Collapse(s)) == NonSpace(s)
    ensures NoControl(s) ==> NoControl(Collapse(s))
  {
    CollapseSingleSpaced(s);
    CollapseNonSpace(s);
    if NoControl(s) {
      CollapseNoControl(s);
    }
  }

  /** One step of `Collapse`: the first whitespace run or character, and where collapsing goes on. */
  function CollapseNext(s: string): nat
    requires s != []
  {
    if IsSpace(s[0]) then SpaceRunEnd(s, 0) else 1
  }

  lemma CollapseUnfold(s: string)
    requires s != []
    ensures 0 < CollapseNext(s) <= |s|
    ensures Collapse(s) == [if IsSpace(s[0]) then ' ' else s[0]] + Collapse(s[CollapseNext(s)..])
    ensures CollapseNext(s) < |s| && IsSpace(s[0]) ==> !IsSpace(s[CollapseNext(s)])
  {
  }

  lemma {:induction false} CollapseSingleSpaced(s: string)
    ensures SingleSpaced(Collapse(s))
    decreases |s|
  {
    if s != [] {
      var k := CollapseNext(s);
      CollapseUnfold(s);
      CollapseSingleSpaced(s[k..]);
      SingleSpacedCons(if IsSpace(s[0]) then ' ' else s[0], Collapse(s[k..]));
    }
  }

  lemma {:induction false} CollapseNonSpace(s: string)
    ensures NonSpace(Collapse(s)) == NonSpace(s)
    decreases |s|
  {
    if s != [] {
      var k := CollapseNext(s);
      var c := if IsSpace(s[0]) then ' ' else s[0];
      CollapseUnfold(s);
      CollapseNonSpace(s[k..]);
      NonSpaceCons(c, Collapse(s[k..]));
      if IsSpace(s[0]) {
        NonSpaceSkipsRun(s, k);
      } else {
        NonSpaceCons(s[0], s[1..]);
        assert [s[0]] + s[1..] == s;
      }
    }
  }

  lemma {:induction false} CollapseNoControl(s: string)
    requires NoControl(s)
    ensures NoControl(Collapse(s))
    decreases |s|
  {
    if s != [] {
      var k := CollapseNext(s);
      CollapseUnfold(s);
      assert NoControl(s[k..]) by {
        assert forall j :: 0 <= j < |s[k..]| ==> s[k..][j] == s[k + j];
      }
      CollapseNoControl(s[k..]);
      var c := if IsSpace(s[0]) then ' ' else s[0];
      assert !IsStrippedControl(c);
      var r := [c] + Collapse(s[k..]);
      assert forall j :: 1 <= j < |r| ==> r[j] == Collapse(s[k..])[j - 1];
    }
  }

  lemma SingleSpacedCons(c: char, t: string)
    requires SingleSpaced(t)
    requires IsSpace(c) ==> c == ' ' && (t == [] || !IsSpace(t[0]))
    ensures SingleSpaced([c] + t)
  {
    var r := [c] + t;
    forall i | 0 <= i < |r| && IsSpace(r[i]) ensures r[i] == ' ' && (i + 1 < |r| ==> !IsSpace(r[i + 1])) {
      if i > 0 {
        assert r[i] == t[i - 1];
        if i + 1 < |r| { assert r[i + 1] == t[i]; }
      } else if i + 1 < |r| {
        assert r[1] == t[0];
      }
    }
  }

  lemma NonSpaceCons(c: char, t: string)
    ensures NonSpace([c] + t) == (if IsSpace(c) then [] else [c]) + NonSpace(t)
  {
    assert ([c] + t)[0] == c && ([c] + t)[1..] == t;
  }

  /** `sanitize_input`: delete control characters, collapse whitespace runs, strip. */
  function Sanitize(text: string): (r: string)
    ensures Clean(r)
    ensures NonSpace(r) == NonSpace(RemoveControl(text))
  {
    var c := Collapse(RemoveControl(text));
    CollapseKeeps(RemoveControl(text));
    StripKeepsClean(c);
    StripKeepsNonSpace(c);
    Strip(c)
  }

  lemma {:induction false} NonSpaceAppend(a: string, b: string)
    ensures NonSpace(a + b) == NonSpace(a) + NonSpace(b)
    decreases |a|
  {
    if a == [] {
      assert a + b == b;
    } else {
      var h := if IsSpace(a[0]) then [] else [a[0]];
      assert NonSpace(a + b) == h + NonSpace(a[1..] + b) by {
        assert (a + b)[0] == a[0] && (a + b)[1..] == a[1..] + b;
      }
      NonSpaceAppend(a[1..], b);
      assert h + (NonSpace(a[1..]) + NonSpace(b)) == (h + NonSpace(a[1..])) + NonSpace(b);
    }
  }

  /** A strip of a single-spaced text without control characters is clean. */
  lemma StripKeepsClean(c: string)
    requires NoControl(c) && SingleSpaced(c)
    ensures Clean(Strip(c))
  {
    SliceClean(c, Strip(c), StripStart(c));
  }

  /**
   * A slice of a single-spaced text without control characters that neither
   * starts nor ends with whitespace is clean.
   */
  lemma SliceClean(c: string, r: string, a: nat)
    requires a + |r| <= |c| && r == c[a..a + |r|] && NoControl(c) && SingleSpaced(c)
    requires r == [] || (!IsSpace(r[0]) && !IsSpace(r[|r| - 1]))
    ensures Clean(r)
  {
    forall j | 0 <= j < |r|
      ensures !IsStrippedControl(r[j])
      ensures IsSpace(r[j]) ==> r[j] == ' ' && (j + 1 < |r| ==> !IsSpace(r[j + 1]))
    {
      assert r[j] == c[a + j];
      if j + 1 < |r| { assert r[j + 1] == c[a + j + 1]; }
    }
  }

  lemma {:induction false} TrimLeftKeepsNonSpace(s: string)
    ensures NonSpace(TrimLeft(s)) == NonSpace(s)
    decreases |s|
  {
    if |s| > 0 && IsSpace(s[0]) { TrimLeftKeepsNonSpace(s[1..]); }
  }

  lemma {:induction false} TrimRightKeepsNonSpace(s: string)
    ensures NonSpace(TrimRight(s)) == NonSpace(s)
    decreases |s|
  {
    if |s| > 0 && IsSpace(s[|s| - 1]) {
      var init := s[..|s| - 1];
      TrimRightKeepsNonSpace(init);
      assert s == init + [s[|s| - 1]];
      NonSpaceAppend(init, [s[|s| - 1]]);
      assert NonSpace([s[|s| - 1]]) == [];
    }
  }

  /** Stripping only removes whitespace. */
  lemma StripKeepsNonSpace(s: string)
    ensures NonSpace(Strip(s)) == NonSpace(s)
  {
    TrimLeftKeepsNonSpace(s);
    TrimRightKeepsNonSpace(TrimLeft(s));
  }

  lemma {:induction false} CollapseUnchanged(s: string)
    requires SingleSpaced(s)
    ensures Collapse(s) == s
    decreases |s|
  {
    if s != [] {
      if IsSpace(s[0]) {
        assert SpaceRunEnd(s, 0) == 1;
      }
      CollapseUnchanged(s[1..]);
    }
  }

  /**
   * Deleting control characters works character by character: a text is
   * cleaned piece by piece (`RemoveControlAppend`), a control character is
   * dropped and any other character is kept (`RemoveControlChar`).
   */
  lemma RemoveControlChar(c: char)
    ensures RemoveControl([c]) == (if IsStrippedControl(c) then [] else [c])
  {
    assert [c][1..] == [];
  }

  lemma {:induction false} RemoveControlAppend(a: string, b: string)
    ensures RemoveControl(a + b) == RemoveControl(a) + RemoveControl(b)
    decreases |a|
  {
    if a == [] {
      assert a + b == b;
    } else {
      var h := if IsStrippedControl(a[0]) then [] else [a[0]];
      assert RemoveControl(a + b) == h + RemoveControl(a[1..] + b) by {
        assert (a + b)[0] == a[0] && (a + b)[1..] == a[1..] + b;
      }
      RemoveControlAppend(a[1..], b);
      assert h + (RemoveControl(a[1..]) + RemoveControl(b)) == (h + RemoveControl(a[1..])) + RemoveControl(b);
    }
  }

  /** A word (a run of non-whitespace characters) is copied as it is. */
  lemma CollapseWord(w: string, t: string)
    requires forall j :: 0 <= j < |w| ==> !IsSpace(w[j])
    ensures Collapse(w + t) == w + Collapse(t)
  {
    var c := w + t;
    assert forall j :: 0 <= j < |w| ==> c[j] == w[j];
    CollapseWordAt(c, |w|);
    assert c[..|w|] == w && c[|w|..] == t;
  }

  /** A non-whitespace character is copied and collapsing goes on after it. */
  lemma CollapseStep(s: string)
    requires s != [] && !IsSpace(s[0])
    ensures Collapse(s) == [s[0]] + Collapse(s[1..])
  {
  }

  /** A whole run of whitespace becomes exactly one space. */
  lemma CollapseRun(sp: string, t: string)
    requires |sp| > 0 && forall j :: 0 <= j < |sp| ==> IsSpace(sp[j])
    requires t == [] || !IsSpace(t[0])
    ensures Collapse(sp + t) == [' '] + Collapse(t)
  {
    var c := sp + t;
    assert forall j :: 0 <= j < |sp| ==> c[j] == sp[j];
    assert |sp| < |c| ==> c[|sp|] == t[0];
    assert SpaceRunEnd(c, 0) == |sp|;
    CollapseRunAt(c, 0);
    assert c[0..] == c && c[|sp|..] == t;
  }

  /**
   * Collapsing a text that does not start with whitespace, then dropping
   * the trailing space, gives its words joined by single spaces.
   */
  lemma {:induction false} CollapseTrimRightWords(c: string)
    requires c == [] || !IsSpace(c[0])
    ensures TrimRight(Collapse(c)) == Join(" ", Words(c))
    decreases |c|
  {
    if c != [] {
      var k := WordRunEnd(c, 0);
      if k == |c| {
        OneWord(c);
      } else {
        var m := SpaceRunEnd(c, k);
        var w, rest := c[..k], c[m..];
        WordsFirst(c);
        CollapseFirstWord(c);
        if rest == [] {
          assert Words(rest) == [];
          LastWordTrimmed(w, c);
        } else {
          CollapseTrimRightWords(rest);
          JoinAfterWord(w, Collapse(rest), Words(rest));
        }
      }
    }
  }

  /** A text that is one word collapses and trims to itself, its only word. */
  lemma OneWord(c: string)
    requires c != [] && WordRunEnd(c, 0) == |c|
    ensures TrimRight(Collapse(c)) == Join(" ", Words(c))
  {
    assert Collapse(c) == c by {
      CollapseWordAt(c, |c|);
      assert c[..|c|] == c && c[|c|..] == [];
    }
    assert Words(c) == [c] by {
      WordsFirst(c);
      assert c[..|c|] == c && c[|c|..] == [];
    }
    assert TrimRight(c) == c by {
      assert !IsSpace(c[|c| - 1]);
    }
  }

  /** A word followed by whitespace collapses to the word, one space and the collapse of the rest. */
  lemma CollapseFirstWord(c: string)
    requires c != [] && WordRunEnd(c, 0) < |c|
    ensures var k := WordRunEnd(c, 0);
      Collapse(c) == c[..k] + ([' '] + Collapse(c[SpaceRunEnd(c, k)..]))
  {
    var k := WordRunEnd(c, 0);
    CollapseWordAt(c, k);
    CollapseRunAt(c, k);
  }

  /** The first `k` characters of `c`, none of them whitespace, are copied. */
  lemma {:induction false} CollapseWordAt(c: string, k: nat)
    requires k <= |c| && forall j :: 0 <= j < k ==> !IsSpace(c[j])
    ensures Collapse(c) == c[..k] + Collapse(c[k..])
    decreases k
  {
    if k > 0 {
      CollapseWordAt(c, k - 1);
      var u := c[k - 1..];
      CollapseStep(u);
      assert u[0] == c[k - 1] && u[1..] == c[k..];
      assert c[..k - 1] + [c[k - 1]] == c[..k];
    } else {
      assert c[..0] + Collapse(c[0..]) == Collapse(c);
    }
  }

  /** The whitespace run starting at `k` becomes one space. */
  lemma CollapseRunAt(c: string, k: nat)
    requires k < |c| && IsSpace(c[k])
    ensures Collapse(c[k..]) == [' '] + Collapse(c[SpaceRunEnd(c, k)..])
  {
    var t, m := c[k..], SpaceRunEnd(c, k);
    assert forall j :: 0 <= j < |t| ==> t[j] == c[k + j];
    assert SpaceRunEnd(t, 0) == m - k;
    assert t[m - k..] == c[m..];
  }

  /** A word followed by one space trims back to the word, which is its own join. */
  lemma LastWordTrimmed(w: string, c: string)
    requires w != [] && !IsSpace(w[|w| - 1])
    requires Collapse(c) == w + ([' '] + []) && Words(c) == [w]
    ensures TrimRight(Collapse(c)) == Join(" ", Words(c))
  {
    assert Collapse(c) == w + [' '];
    assert (w + [' '])[..|w|] == w;
    assert TrimRight(w + [' ']) == TrimRight(w) == w;
  }

  /** A word, a space and a text whose trim is a non-empty join trim to the longer join. */
  lemma JoinAfterWord(w: string, x: string, ws: seq<string>)
    requires x != [] && !IsSpace(x[0]) && |ws| > 0 && TrimRight(x) == Join(" ", ws)
    ensures TrimRight(w + ([' '] + x)) == Join(" ", [w] + ws)
  {
    assert w + ([' '] + x) == (w + " ") + x;
    TrimRightAppend(w + " ", x);
    var j := [w] + ws;
    assert j[0] == w && j[1..] == ws && |j| > 1;
    assert Join(" ", j) == w + " " + Join(" ", ws);
  }

  /**
   * `sanitize_input` is `" ".join(text.split())` of the text without control
   * characters: the words, in order, separated by single spaces.
   */
  lemma SanitizeWords(text: string)
    ensures Sanitize(text) == Join(" ", Words(RemoveControl(text)))
  {
    var c := RemoveControl(text);
    var x := Collapse(c);
    if c != [] && IsSpace(c[0]) {
      var m := SpaceRunEnd(c, 0);
      assert x == [' '] + Collapse(c[m..]);
      assert TrimLeft(x) == TrimLeft(Collapse(c[m..]));
      WordsSkipRun(c, 0, m);
      assert c[0..] == c;
      CollapseTrimRightWords(c[m..]);
    } else {
      CollapseTrimRightWords(c);
    }
  }

  /** Sanitising a clean text gives it back. */
  lemma SanitizeCleanUnchanged(s: string)
    requires Clean(s)
    ensures Sanitize(s) == s
  {
    CollapseUnchanged(s);
    StripUnchanged(s);
  }

  /** `sanitize_input` is idempotent. */
  lemma SanitizeIdempotent(text: string)
    ensures Sanitize(Sanitize(text)) == Sanitize(text)
  {
    SanitizeCleanUnchanged(Sanitize(text));
  }

  // ---------------------------------------------------------------------
  // Sanitisation commutes with ASCII lower-casing
  // ---------------------------------------------------------------------

  /** The head of a lowered text and the lowered tail. */
  lemma LowerSplit(s: string)
    requires |s| > 0
    ensures Lower(s) == [LowerChar(s[0])] + Lower(s[1..])
  {
    assert Lower(s)[1..] == Lower(s[1..]);
  }

  /** The lowered init of a text and its lowered last character. */
  lemma LowerSplitLast(s: string)
    requires |s| > 0
    ensures Lower(s) == Lower(s[..|s| - 1]) + [LowerChar(s[|s| - 1])]
  {
    assert Lower(s)[..|s| - 1] == Lower(s[..|s| - 1]);
  }

  lemma {:induction false} LowerRemoveControl(s: string)
    ensures Lower(RemoveControl(s)) == RemoveControl(Lower(s))
    decreases |s|
  {
    if s != [] {
      var c, tail := s[0], s[1..];
      assert IsStrippedControl(LowerChar(c)) == IsStrippedControl(c);
      LowerSplit(s);
      var head := if IsStrippedControl(c) then [] else [c];
      assert RemoveControl(s) == head + RemoveControl(tail);
      LowerConcat(head, RemoveControl(tail));
      LowerRemoveControl(tail);
      var ls := Lower(s);
      assert ls[0] == LowerChar(c) && ls[1..] == Lower(tail);
      assert RemoveControl(ls) == (if IsStrippedControl(ls[0]) then [] else [ls[0]]) + RemoveControl(ls[1..]);
      assert Lower(head) == (if IsStrippedControl(ls[0]) then [] else [ls[0]]);
    }
  }

  lemma {:induction false} LowerSpaceRunEnd(s: string, i: nat)
    requires i <= |s|
    ensures SpaceRunEnd(Lower(s), i) == SpaceRunEnd(s, i)
    decreases |s| - i
  {
    if i < |s| {
      LowerCharKeepsClass(s[i]);
      if IsSpace(s[i]) { LowerSpaceRunEnd(s, i + 1); }
    }
  }

  lemma {:induction false} LowerCollapse(s: string)
    ensures Lower(Collapse(s)) == Collapse(Lower(s))
    decreases |s|
  {
    if s != [] {
      var ls := Lower(s);
      LowerCharKeepsClass(s[0]);
      assert ls[0] == LowerChar(s[0]);
      var k := if IsSpace(s[0]) then SpaceRunEnd(s, 0) else 1;
      LowerSpaceRunEnd(s, 0);
      assert k > 0;
      LowerSlice(s, k, |s|);
      assert ls[k..] == Lower(s[k..]);
      LowerCollapse(s[k..]);
      var head := if IsSpace(s[0]) then [' '] else [s[0]];
      assert Collapse(s) == head + Collapse(s[k..]);
      LowerConcat(head, Collapse(s[k..]));
      var lhead := if IsSpace(ls[0]) then [' '] else [ls[0]];
      assert Collapse(ls) == lhead + Collapse(ls[k..]);
      assert Lower(head) == lhead;
    }
  }

  lemma {:induction false} LowerTrimLeft(s: string)
    ensures Lower(TrimLeft(s)) == TrimLeft(Lower(s))
    decreases |s|
  {
    if |s| > 0 {
      var ls := Lower(s);
      LowerCharKeepsClass(s[0]);
      assert ls[0] == LowerChar(s[0]);
      if IsSpace(s[0]) {
        assert TrimLeft(s) == TrimLeft(s[1..]);
        LowerSplit(s);
        assert ls[1..] == Lower(s[1..]);
        assert TrimLeft(ls) == TrimLeft(ls[1..]);
        LowerTrimLeft(s[1..]);
      } else {
        assert TrimLeft(s) == s;
        assert TrimLeft(ls) == ls;
      }
    }
  }

  lemma {:induction false} LowerTrimRight(s: string)
    ensures Lower(TrimRight(s)) == TrimRight(Lower(s))
    decreases |s|
  {
    if |s| > 0 {
      var ls, n := Lower(s), |s| - 1;
      LowerCharKeepsClass(s[n]);
      assert ls[n] == LowerChar(s[n]);
      if IsSpace(s[n]) {
        assert TrimRight(s) == TrimRight(s[..n]);
        LowerSplitLast(s);
        assert ls[..n] == Lower(s[..n]);
        assert TrimRight(ls) == TrimRight(ls[..n]);
        LowerTrimRight(s[..n]);
      } else {
        assert TrimRight(s) == s;
        assert TrimRight(ls) == ls;
      }
    }
  }

  /** Lower-casing before or after sanitising gives the same text. */
  lemma LowerSanitize(s: string)
    ensures Lower(Sanitize(s)) == Sanitize(Lower(s))
  {
    LowerRemoveControl(s);
    LowerCollapse(RemoveControl(s));
    var c := Collapse(RemoveControl(s));
    LowerTrimLeft(c);
    LowerTrimRight(TrimLeft(c));
  }

  // ---------------------------------------------------------------------
  // Rules and first-match checks
  // ---------------------------------------------------------------------

  /** One compiled pattern `\b(phrase|phrase|...)\b`, matched ignoring case. */
  datatype Rule = Rule(pattern: string, phrases: seq<string>)

  /** `L0Decision`. */
  datatype Decision = Decision(allowed: bool, reason: string, sanitized: string)

  /** An `L0Policy`: the general rule list and the stricter output-only list. */
  datatype Policy = Policy(blockRules: seq<Rule>, outputRules: seq<Rule>)

  /** Python's `\b` at index `i` of `l`: a word character on exactly one side. */
  predicate Boundary(l: string, i: int) {
    (0 < i <= |l| && IsWordChar(l[i - 1])) != (0 <= i < |l| && IsWordChar(l[i]))
  }

  /** `phrase` occurs in the lowered text `l` at `i`, bounded by `\b` on both sides. */
  predicate PhraseAt(l: string, phrase: string, i: int) {
    Boundary(l, i) && OccursAt(l, Lower(phrase), i) && Boundary(l, i + |phrase|)
  }

  predicate PhraseIn(l: string, phrase: string) {
    exists i | 0 <= i <= |l| :: PhraseAt(l, phrase, i)
  }

  /**
   * `pat.search(s)` for a rule compiled with IGNORECASE: some phrase of the
   * rule occurs, word-bounded, in the lowered text. Lowering keeps word
   * characters word characters, so the boundaries of `Lower(s)` are those of `s`.
   * `RuleMatchesIgnoresCase`, `WordRunMissesRule` and `DefaultRejectsPassword`
   * state how it behaves.
   */
  predicate RuleMatches(rule: Rule, s: string) {
    exists k | 0 <= k < |rule.phrases| :: PhraseIn(Lower(s), rule.phrases[k])
  }

  /** `rules[k]` is the first rule of the list that matches `s`. */
  predicate IsFirstMatch(rules: seq<Rule>, s: string, k: int) {
    0 <= k < |rules| && RuleMatches(rules[k], s) && forall j :: 0 <= j < k ==> !RuleMatches(rules[j], s)
  }

  predicate NoneMatch(rules: seq<Rule>, s: string) {
    forall j :: 0 <= j < |rules| ==> !RuleMatches(rules[j], s)
  }

  /** The scan `for pat in rules: if pat.search(s): return ...`, from index `from` on. */
  function FirstMatchFrom(rules: seq<Rule>, s: string, from: nat): (r: Option<nat>)
    requires from <= |rules|
    ensures r.Some? ==> from <= r.value < |rules| && RuleMatches(rules[r.value], s)
    ensures r.Some? ==> forall j :: from <= j < r.value ==> !RuleMatches(rules[j], s)
    ensures r.None? ==> forall j :: from <= j < |rules| ==> !RuleMatches(rules[j], s)
    decreases |rules| - from
  {
    if from == |rules| then None
    else if RuleMatches(rules[from], s) then Some(from)
    else FirstMatchFrom(rules, s, from + 1)
  }

  /** Index of the first matching rule, if any. */
  function FirstMatch(rules: seq<Rule>, s: string): (r: Option<nat>)
    ensures r.Some? <==> !NoneMatch(rules, s)
    ensures r.Some? ==> IsFirstMatch(rules, s, r.value)
  {
    FirstMatchFrom(rules, s, 0)
  }

  const InputReasonPrefix := "Blocked by L0 policy pattern: "
  const OutputReasonPrefix := "Blocked by L0 policy (output) pattern: "
  const OutputCommandReasonPrefix := "Blocked by L0 policy (output command) pattern: "

  /** `check_input`: reject on the first general rule that matches the sanitised text. */
  function CheckInput(p: Policy, text: string): (d: Decision)
    ensures d.sanitized == Sanitize(text)
    ensures d.allowed <==> NoneMatch(p.blockRules, d.sanitized)
    ensures d.allowed ==> d.reason == "Allowed"
    ensures !d.allowed ==> exists k :: IsFirstMatch(p.blockRules, d.sanitized, k)
                                      && d.reason == InputReasonPrefix + p.blockRules[k].pattern
  {
    var s := Sanitize(text);
    match FirstMatch(p.blockRules, s)
    case Some(k) => Decision(false, InputReasonPrefix + p.blockRules[k].pattern, s)
    case None => Decision(true, "Allowed", s)
  }

  /**
   * `check_output`: the general rules first, then the output-only rules;
   * the first match in that order decides, and the reason says which list.
   */
  function CheckOutput(p: Policy, text: string): (d: Decision)
    ensures d.sanitized == Sanitize(text)
    ensures d.allowed <==> NoneMatch(p.blockRules, d.sanitized) && NoneMatch(p.outputRules, d.sanitized)
    ensures d.allowed ==> d.reason == "Output allowed"
    ensures !NoneMatch(p.blockRules, d.sanitized) ==>
              exists k :: IsFirstMatch(p.blockRules, d.sanitized, k)
                          && d.reason == OutputReasonPrefix + p.blockRules[k].pattern
    ensures NoneMatch(p.blockRules, d.sanitized) && !d.allowed ==>
              exists k :: IsFirstMatch(p.outputRules, d.sanitized, k)
                          && d.reason == OutputCommandReasonPrefix + p.outputRules[k].pattern
  {
    var s := Sanitize(text);
    match FirstMatch(p.blockRules, s)
    case Some(k) => Decision(false, OutputReasonPrefix + p.blockRules[k].pattern, s)
    case None =>
      match FirstMatch(p.outputRules, s)
      case Some(k) => Decision(false, OutputCommandReasonPrefix + p.outputRules[k].pattern, s)
      case None => Decision(true, "Output allowed", s)
  }

  /** The output check is at least as strict as the input check. */
  lemma OutputStricterThanInput(p: Policy, text: string)
    ensures CheckOutput(p, text).allowed ==> CheckInput(p, text).allowed
    ensures !CheckInput(p, text).allowed ==> !CheckOutput(p, text).allowed
  {
  }

  /** Whether a rule matches depends only on the lowered text. */
  lemma RuleMatchesIgnoresCase(rule: Rule, a: string, b: string)
    requires Lower(a) == Lower(b)
    ensures RuleMatches(rule, a) == RuleMatches(rule, b)
  {
  }

  /** Texts that differ only in the case of ASCII letters sanitise to such texts. */
  lemma SanitizeIgnoresCase(a: string, b: string)
    requires Lower(a) == Lower(b)
    ensures Lower(Sanitize(a)) == Lower(Sanitize(b))
  {
    LowerSanitize(a);
    LowerSanitize(b);
  }

  /** Changing the case of ASCII letters never changes either verdict. */
  lemma CheckIgnoresCase(p: Policy, a: string, b: string)
    requires Lower(a) == Lower(b)
    ensures CheckInput(p, a).allowed == CheckInput(p, b).allowed
    ensures CheckOutput(p, a).allowed == CheckOutput(p, b).allowed
  {
    SanitizeIgnoresCase(a, b);
    var sa, sb := Sanitize(a), Sanitize(b);
    forall rule | true ensures RuleMatches(rule, sa) == RuleMatches(rule, sb) {
      RuleMatchesIgnoresCase(rule, sa, sb);
    }
  }

  // ---------------------------------------------------------------------
  // The rule lists of the source
  // ---------------------------------------------------------------------

  const SecretsRule := Rule("\\b(passwords?|api[-_ ]?keys?|private key|seed phrase)\\b",
    ["password", "passwords", "apikey", "apikeys", "api-key", "api-keys", "api_key", "api_keys",
     "api key", "api keys", "private key", "seed phrase"])
  const ExfiltrationRule := Rule("\\b(exfiltrate|steal|dump|leak)\\b",
    ["exfiltrate", "steal", "dump", "leak"])
  const DestructiveRule := Rule("\\b(delete|rm -rf|format disk)\\b",
    ["delete", "rm -rf", "format disk"])
  const FinancialRule := Rule("\\b(insider trading|market manipulation|fraud)\\b",
    ["insider trading", "market manipulation", "fraud"])

  /** `DEFAULT_BLOCKLIST`, in order. */
  const DefaultBlocklist := [SecretsRule, ExfiltrationRule, DestructiveRule, FinancialRule]

  /** The two output-only patterns fixed in `L0Policy.__init__`, in order. */
  const OutputBlocklist := [
    Rule("\\b(execute|run|shell|command|system call)\\b",
      ["execute", "run", "shell", "command", "system call"]),
    Rule("\\b(harm|damage|destroy|attack)\\b",
      ["harm", "damage", "destroy", "attack"])
  ]

  /** `L0Policy(block_patterns)`: a missing or empty list falls back to the default. */
  function NewPolicy(blockPatterns: Option<seq<Rule>>): (p: Policy)
    ensures p.outputRules == OutputBlocklist
    ensures blockPatterns.Some? && |blockPatterns.value| > 0 ==> p.blockRules == blockPatterns.value
    ensures blockPatterns.None? || blockPatterns.value == [] ==> p.blockRules == DefaultBlocklist
  {
    match blockPatterns
    case Some(rules) => Policy(if |rules| > 0 then rules else DefaultBlocklist, OutputBlocklist)
    case None => Policy(DefaultBlocklist, OutputBlocklist)
  }

  /** A word-bounded "password", in any letter case, is rejected by the first default rule. */
  lemma DefaultRejectsPassword(text: string, i: nat)
    requires PhraseAt(Lower(Sanitize(text)), "password", i)
    ensures !CheckInput(NewPolicy(None), text).allowed
    ensures CheckInput(NewPolicy(None), text).reason == InputReasonPrefix + SecretsRule.pattern
  {
    var s := Sanitize(text);
    assert NewPolicy(None).blockRules == DefaultBlocklist;
    assert RuleMatches(DefaultBlocklist[0], s) by {
      assert SecretsRule.phrases[0] == "password";
      assert PhraseIn(Lower(s), SecretsRule.phrases[0]);
    }
    assert FirstMatch(DefaultBlocklist, s) == Some(0);
  }

  /**
   * Inside a run of word characters `\b` holds only at the two ends, so a
   * phrase is found there only when it spans the whole run.
   */
  lemma WordRunPhrase(l: string, phrase: string)
    requires forall j :: 0 <= j < |l| ==> IsWordChar(l[j])
    requires 0 < |phrase| && |phrase| != |l|
    ensures !PhraseIn(l, phrase)
  {
    forall i | 0 <= i <= |l| ensures !PhraseAt(l, phrase, i) {
      if 0 < i < |l| {
        assert IsWordChar(l[i - 1]) && IsWordChar(l[i]);
      } else if i == 0 && |phrase| < |l| {
        assert IsWordChar(l[|phrase| - 1]) && IsWordChar(l[|phrase|]);
      }
    }
  }

  /** A rule none of whose phrases is as long as a run of word characters does not match it. */
  lemma WordRunMissesRule(rule: Rule, s: string)
    requires forall j :: 0 <= j < |s| ==> IsWordChar(s[j])
    requires NoPhraseOfLength(rule, |s|)
    ensures !RuleMatches(rule, s)
  {
    var l := Lower(s);
    forall j | 0 <= j < |l| ensures IsWordChar(l[j]) {
      assert l[j] == LowerChar(s[j]);
    }
    forall k | 0 <= k < |rule.phrases| ensures !PhraseIn(l, rule.phrases[k]) {
      WordRunPhrase(l, rule.phrases[k]);
    }
  }

  /** No phrase of a rule is empty or `n` characters long. */
  predicate NoPhraseOfLength(rule: Rule, n: int) {
    forall k :: 0 <= k < |rule.phrases| ==> 0 < |rule.phrases[k]| && |rule.phrases[k]| != n
  }

  /** A run of word characters that no default phrase spans passes the default policy. */
  lemma WordRunAllowed(s: string)
    requires forall j :: 0 <= j < |s| ==> IsWordChar(s[j])
    requires forall r :: 0 <= r < |DefaultBlocklist| ==> NoPhraseOfLength(DefaultBlocklist[r], |s|)
    ensures CheckInput(NewPolicy(None), s).allowed
  {
    assert Clean(s);
    SanitizeCleanUnchanged(s);
    forall r | 0 <= r < |DefaultBlocklist| ensures !RuleMatches(DefaultBlocklist[r], s) {
      WordRunMissesRule(DefaultBlocklist[r], s);
    }
  }

  /**
   * The default rules are word-bounded, so a phrase glued to further word
   * characters does not match: "passwords123" passes the default policy.
   */
  lemma DefaultAllowsGluedPassword()
    ensures CheckInput(NewPolicy(None), "passwords123").allowed
  {
    var s := "passwords123";
    forall j | 0 <= j < |s| ensures IsWordChar(s[j]) { }
    assert NoPhraseOfLength(SecretsRule, 12);
    assert NoPhraseOfLength(ExfiltrationRule, 12);
    assert NoPhraseOfLength(DestructiveRule, 12);
    assert NoPhraseOfLength(FinancialRule, 12);
    WordRunAllowed(s);
  }
}
