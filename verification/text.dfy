/**
 * Character classes and string helpers shared by the whole model.
 * Strings are sequences of Unicode scalar values, as Python `str` is a
 * sequence of code points.
 */
module Text {

  /** Python's `str.isspace()`, which is also what `\s` and `str.strip()` use. */
  predicate IsSpace(c: char) {
    c == ' ' || ('\t' <= c <= '\r') || ('\U{1C}' <= c <= '\U{1F}')
    || c == '\U{85}' || c == '\U{A0}' || c == '\U{1680}'
    || ('\U{2000}' <= c <= '\U{200A}') || c == '\U{2028}' || c == '\U{2029}'
    || c == '\U{202F}' || c == '\U{205F}' || c == '\U{3000}'
  }

  predicate IsUpperAscii(c: char) { 'A' <= c <= 'Z' }

  predicate IsLowerAscii(c: char) { 'a' <= c <= 'z' }

  /** A character of `\w`, restricted to ASCII: letters, digits and `_`. */
  predicate IsWordChar(c: char) {
    IsUpperAscii(c) || IsLowerAscii(c) || ('0' <= c <= '9') || c == '_'
  }

  function LowerChar(c: char): char {
    if IsUpperAscii(c) then (c as int + 32) as char else c
  }

  function UpperChar(c: char): char {
    if IsLowerAscii(c) then (c as int - 32) as char else c
  }

  /** `s.lower()` on ASCII letters; every other character is kept. */
  function Lower(s: string): (r: string)
    ensures |r| == |s|
    ensures forall i :: 0 <= i < |s| ==> r[i] == LowerChar(s[i])
  {
    seq(|s|, i requires 0 <= i < |s| => LowerChar(s[i]))
  }

  /** `s.upper()` on ASCII letters; every other character is kept. */
  function Upper(s: string): (r: string)
    ensures |r| == |s|
    ensures forall i :: 0 <= i < |s| ==> r[i] == UpperChar(s[i])
  {
    seq(|s|, i requires 0 <= i < |s| => UpperChar(s[i]))
  }

  lemma LowerSlice(s: string, i: nat, j: nat)
    requires i <= j <= |s|
    ensures Lower(s[i..j]) == Lower(s)[i..j]
  {
  }

  lemma LowerConcat(a: string, b: string)
    ensures Lower(a + b) == Lower(a) + Lower(b)
  {
  }

  /** Lowering keeps every character class the model tests. */
  lemma LowerCharKeepsClass(c: char)
    ensures IsSpace(LowerChar(c)) == IsSpace(c)
    ensures IsWordChar(LowerChar(c)) == IsWordChar(c)
    ensures LowerChar(c) == c <==> !IsUpperAscii(c)
  {
  }

  /** `w` occurs in `t` starting at index `i`. */
  predicate OccursAt(t: string, w: string, i: int) {
    0 <= i && i + |w| <= |t| && t[i..i + |w|] == w
  }

  /** Python's `w in t` on strings: a substring test. */
  predicate Contains(t: string, w: string) {
    exists i | 0 <= i <= |t| - |w| :: OccursAt(t, w, i)
  }

  /** The empty text contains no non-empty word. */
  lemma EmptyContainsNothing(w: string)
    requires |w| > 0
    ensures !Contains("", w)
  {
  }

  /** Index after the run of whitespace starting at `i`. */
  function SpaceRunEnd(s: string, i: nat): (k: nat)
    requires i <= |s|
    ensures i <= k <= |s|
    ensures forall j :: i <= j < k ==> IsSpace(s[j])
    ensures k == |s| || !IsSpace(s[k])
    decreases |s| - i
  {
    if i < |s| && IsSpace(s[i]) then SpaceRunEnd(s, i + 1) else i
  }

  /** `s.lstrip()`: drop leading whitespace. */
  function TrimLeft(s: string): (r: string)
    ensures |r| <= |s| && r == s[|s| - |r|..]
    ensures r == [] || !IsSpace(r[0])
    ensures forall j :: 0 <= j < |s| - |r| ==> IsSpace(s[j])
    decreases |s|
  {
    if |s| > 0 && IsSpace(s[0]) then TrimLeft(s[1..]) else s
  }

  /** `s.rstrip()`: drop trailing whitespace. */
  function TrimRight(s: string): (r: string)
    ensures |r| <= |s| && r == s[..|r|]
    ensures r == [] || !IsSpace(r[|r| - 1])
    ensures forall j :: |r| <= j < |s| ==> IsSpace(s[j])
    decreases |s|
  {
    if |s| > 0 && IsSpace(s[|s| - 1]) then TrimRight(s[..|s| - 1]) else s
  }

  /** Index of the first character `Strip` keeps. */
  function StripStart(s: string): nat {
    |s| - |TrimLeft(s)|
  }

  /** `s.strip()`: drop leading and trailing whitespace. */
  function Strip(s: string): (r: string)
    ensures r == [] || (!IsSpace(r[0]) && !IsSpace(r[|r| - 1]))
    ensures StripStart(s) + |r| <= |s| && r == s[StripStart(s)..StripStart(s) + |r|]
    ensures forall j :: 0 <= j < StripStart(s) ==> IsSpace(s[j])
    ensures forall j :: StripStart(s) + |r| <= j < |s| ==> IsSpace(s[j])
  {
    TrimRight(TrimLeft(s))
  }

  /** A text that does not start or end with whitespace is its own strip. */
  lemma StripUnchanged(s: string)
    requires s == [] || (!IsSpace(s[0]) && !IsSpace(s[|s| - 1]))
    ensures Strip(s) == s
  {
  }

  /** Stripping keeps a leading non-space character and everything up to it. */
  lemma StripKeepsFirst(s: string)
    requires |s| > 0 && !IsSpace(s[0])
    ensures |Strip(s)| > 0 && Strip(s)[0] == s[0]
  {
    assert TrimLeft(s) == s;
  }

  /** Index after the run of non-whitespace characters starting at `i`. */
  function WordRunEnd(s: string, i: nat): (k: nat)
    requires i <= |s|
    ensures i <= k <= |s|
    ensures forall j :: i <= j < k ==> !IsSpace(s[j])
    ensures k == |s| || IsSpace(s[k])
    decreases |s| - i
  {
    if i < |s| && !IsSpace(s[i]) then WordRunEnd(s, i + 1) else i
  }

  /** `s.split()`: the maximal runs of non-whitespace characters, in order. */
  function Words(s: string): seq<string>
    decreases |s|
  {
    if s == [] then []
    else if IsSpace(s[0]) then Words(s[1..])
    else
      var k := WordRunEnd(s, 0);
      [s[..k]] + Words(s[k..])
  }

  /** Every word is non-empty and holds no whitespace. */
  lemma {:induction false} WordsAreWords(s: string, k: nat)
    requires k < |Words(s)|
    ensures Words(s)[k] != [] && forall j :: 0 <= j < |Words(s)[k]| ==> !IsSpace(Words(s)[k][j])
    decreases |s|
  {
    if IsSpace(s[0]) {
      WordsAreWords(s[1..], k);
    } else {
      var e := WordRunEnd(s, 0);
      if k > 0 {
        assert Words(s)[k] == Words(s[e..])[k - 1];
        WordsAreWords(s[e..], k - 1);
      }
    }
  }

  /** Whitespace between `i` and `k` does not change the words. */
  lemma {:induction false} WordsSkipRun(s: string, i: nat, k: nat)
    requires i <= k <= |s| && forall j :: i <= j < k ==> IsSpace(s[j])
    ensures Words(s[i..]) == Words(s[k..])
    decreases k - i
  {
    if i < k {
      var t := s[i..];
      assert t[0] == s[i] && t[1..] == s[i + 1..];
      WordsSkipRun(s, i + 1, k);
    }
  }

  /**
   * A text that starts with a non-space character has the run up to the
   * first whitespace as its first word, and the words after the whitespace
   * that follows as the rest.
   */
  lemma WordsFirst(c: string)
    requires c != [] && !IsSpace(c[0])
    ensures var k := WordRunEnd(c, 0);
      var m := if k == |c| then k else SpaceRunEnd(c, k);
      Words(c) == [c[..k]] + Words(c[m..])
  {
    var k := WordRunEnd(c, 0);
    assert Words(c) == [c[..k]] + Words(c[k..]);
    if k < |c| {
      var m := SpaceRunEnd(c, k);
      WordsSkipRun(c, k, m);
    }
  }

  /** Trailing whitespace after a non-space character is all `rstrip` removes. */
  lemma {:induction false} TrimRightAppend(a: string, x: string)
    requires x != [] && !IsSpace(x[0])
    ensures TrimRight(a + x) == a + TrimRight(x)
    decreases |x|
  {
    var s := a + x;
    if IsSpace(x[|x| - 1]) {
      assert s[..|s| - 1] == a + x[..|x| - 1];
      TrimRightAppend(a, x[..|x| - 1]);
    }
  }

  /** `sep.join(xs)`. */
  function Join(sep: string, xs: seq<string>): string
    decreases |xs|
  {
    if |xs| == 0 then ""
    else if |xs| == 1 then xs[0]
    else xs[0] + sep + Join(sep, xs[1..])
  }

  /** Every joined part occurs in the joined text. */
  lemma {:induction false} JoinContainsParts(sep: string, xs: seq<string>, k: nat)
    requires k < |xs|
    ensures Contains(Join(sep, xs), xs[k])
    decreases |xs|
  {
    if |xs| == 1 {
      ContainsPrefix(xs[0], "");
      assert xs[0] + "" == xs[0];
    } else if k == 0 {
      ContainsPrefix(xs[0], sep + Join(sep, xs[1..]));
      assert Join(sep, xs) == xs[0] + (sep + Join(sep, xs[1..]));
    } else {
      JoinContainsParts(sep, xs[1..], k - 1);
      var a, b := xs[0] + sep, Join(sep, xs[1..]);
      assert xs[1..][k - 1] == xs[k];
      ContainsParts(a, b, "");
      assert a + b + "" == Join(sep, xs);
      ContainsTransitive(Join(sep, xs), b, xs[k]);
    }
  }

  /** A join of at least one part starts with the first part. */
  lemma {:induction false} JoinStartsWithFirst(sep: string, xs: seq<string>)
    requires |xs| > 0
    ensures |xs[0]| <= |Join(sep, xs)| && Join(sep, xs)[..|xs[0]|] == xs[0]
  {
  }

  /** An occurrence inside an occurrence is an occurrence. */
  lemma ContainsTransitive(a: string, b: string, c: string)
    requires Contains(a, b) && Contains(b, c)
    ensures Contains(a, c)
  {
    var i :| 0 <= i <= |a| - |b| && OccursAt(a, b, i);
    var j :| 0 <= j <= |b| - |c| && OccursAt(b, c, j);
    assert a[i..i + |b|] == b;
    forall k | 0 <= k < |c| ensures a[i + j + k] == c[k] {
      assert c[k] == b[j + k] == a[i..i + |b|][j + k];
    }
    assert a[i + j..i + j + |c|] == c;
    assert OccursAt(a, c, i + j);
  }

  /** A text contains each of its parts. */
  lemma ContainsParts(a: string, b: string, c: string)
    ensures Contains(a + b + c, b)
  {
    assert (a + b + c)[|a|..|a| + |b|] == b;
    assert OccursAt(a + b + c, b, |a|);
  }

  /** A text contains its prefix. */
  lemma ContainsPrefix(a: string, b: string)
    ensures Contains(a + b, a)
  {
    assert (a + b)[..|a|] == a;
    assert OccursAt(a + b, a, 0);
  }

  /** A text contains its two prefixes `a` and `a + b`. */
  lemma ContainsPrefixes(a: string, b: string, c: string)
    ensures Contains(a + b + c, a) && Contains(a + b + c, a + b)
  {
    assert (a + b + c)[..|a|] == a;
    assert OccursAt(a + b + c, a, 0);
    assert (a + b + c)[..|a + b|] == a + b;
    assert OccursAt(a + b + c, a + b, 0);
  }

  /** Stripping keeps every occurrence of a text that starts and ends with a non-space. */
  lemma StripKeepsInner(s: string, x: string)
    requires Contains(s, x) && |x| > 0 && !IsSpace(x[0]) && !IsSpace(x[|x| - 1])
    ensures Contains(Strip(s), x)
  {
    var i :| 0 <= i <= |s| - |x| && OccursAt(s, x, i);
    TrimLeftKeepsInner(s, x, i);
    var l := TrimLeft(s);
    TrimRightKeepsInner(l, x, i - (|s| - |l|));
  }

  lemma TrimLeftKeepsInner(s: string, x: string, i: int)
    requires OccursAt(s, x, i) && |x| > 0 && !IsSpace(x[0])
    ensures var l := TrimLeft(s); |s| - |l| <= i && OccursAt(l, x, i - (|s| - |l|))
  {
    var l := TrimLeft(s);
    var st := |s| - |l|;
    assert s[i] == s[i..i + |x|][0];
    assert st <= i;
    assert l[i - st..i - st + |x|] == s[i..i + |x|];
  }

  lemma TrimRightKeepsInner(s: string, x: string, i: int)
    requires OccursAt(s, x, i) && |x| > 0 && !IsSpace(x[|x| - 1])
    ensures OccursAt(TrimRight(s), x, i)
  {
    var r := TrimRight(s);
    assert s[i + |x| - 1] == s[i..i + |x|][|x| - 1];
    assert i + |x| <= |r|;
    assert r[i..i + |x|] == s[i..i + |x|];
  }

  /** Length of the Python slice `xs[:n]` when `len(xs) == len`: a negative `n` counts from the end. */
  function SliceLen(len: nat, n: int): (m: nat)
    ensures m <= len
  {
    if n >= 0 then (if n < len then n else len)
    else if len + n < 0 then 0 else len + n
  }

  /** The Python slice `xs[:n]`. */
  function Take<T>(xs: seq<T>, n: int): (r: seq<T>)
    ensures |r| <= |xs| && r == xs[..|r|]
    ensures n >= |xs| ==> r == xs
    ensures 0 <= n <= |xs| ==> |r| == n
  {
    xs[..SliceLen(|xs|, n)]
  }

  lemma TakeIsSubMultiset<T>(xs: seq<T>, n: int)
    ensures multiset(Take(xs, n)) <= multiset(xs)
  {
    var r := Take(xs, n);
    assert xs == r + xs[|r|..];
  }
}
