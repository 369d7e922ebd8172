/**
 * Entity and relation extraction for the knowledge graph
 * (memory_store/graph_rag/entity_extractor.py).
 *
 * `ENTITY_RE` is `\b([A-Z][a-z]+(?:\s+[A-Z][a-z]+){0,3})\b`: one to four
 * capitalised words separated by whitespace. The regex engine is replaced
 * by a matcher written for this one pattern, which makes the same choice as
 * the backtracking engine: from a word boundary, the longest chain of at
 * most four capitalised words that again ends at a word boundary.
 */
module EntityExtractor {
  import opened Wrappers
  import opened Text

  // ---------------------------------------------------------------------
  // The shape of an entity.
  // ---------------------------------------------------------------------

  /** `[A-Z][a-z]+`. */
  predicate CapWord(w: string) {
    |w| >= 2 && IsUpperAscii(w[0]) && forall j :: 1 <= j < |w| ==> IsLowerAscii(w[j])
  }

  /** `\s+`. */
  predicate SpaceRun(r: string) {
    |r| >= 1 && forall j :: 0 <= j < |r| ==> IsSpace(r[j])
  }

  /** `[A-Z][a-z]+(?:\s+[A-Z][a-z]+){0,k-1}`: one to `k` capitalised words separated by whitespace. */
  ghost predicate Entity(x: string, k: nat) {
    k >= 1 &&
    (CapWord(x) ||
     exists a, b :: 0 < a < b < |x| && Entity(x[..a], k - 1) && SpaceRun(x[a..b]) && CapWord(x[b..]))
  }

  // ---------------------------------------------------------------------
  // The matcher.
  // ---------------------------------------------------------------------

  /** `\b` at position `i`: exactly one of the neighbouring characters is a word character. */
  predicate BoundaryAt(s: string, i: nat)
    requires i <= |s|
  {
    (i > 0 && IsWordChar(s[i - 1])) != (i < |s| && IsWordChar(s[i]))
  }

  /** End of the run of lower-case letters starting at `i`. */
  function LowerRunEnd(s: string, i: nat): (k: nat)
    requires i <= |s|
    ensures i <= k <= |s|
    ensures forall j :: i <= j < k ==> IsLowerAscii(s[j])
    ensures k == |s| || !IsLowerAscii(s[k])
    decreases |s| - i
  {
    if i < |s| && IsLowerAscii(s[i]) then LowerRunEnd(s, i + 1) else i
  }

  /** End of the capitalised word starting at `i`, if one does (`[a-z]+` takes the whole run). */
  function WordEnd(s: string, i: nat): (r: Option<nat>)
    requires i <= |s|
    ensures r.Some? ==> i + 2 <= r.value <= |s| && CapWord(s[i..r.value])
    ensures r.Some? ==> r.value == |s| || !IsLowerAscii(s[r.value])
    ensures r.None? ==> forall e :: i <= e <= |s| ==> !CapWord(s[i..e])
  {
    if i + 1 < |s| && IsUpperAscii(s[i]) && IsLowerAscii(s[i + 1]) then
      var e := LowerRunEnd(s, i + 1);
      assert forall j :: 1 <= j < e - i ==> s[i..e][j] == s[i + j];
      Some(e)
    else None
  }

  /** End of `\s+[A-Z][a-z]+` starting at `e` (`\s+` takes the whole run). */
  function NextWord(s: string, e: nat): (r: Option<nat>)
    requires e <= |s|
    ensures r.Some? ==>
      var b := SpaceRunEnd(s, e);
      e < b < r.value <= |s| && SpaceRun(s[e..b]) && CapWord(s[b..r.value])
    ensures r.Some? ==> r.value == |s| || !IsLowerAscii(s[r.value])
    ensures r.None? ==> forall b, e2 :: e < b <= e2 <= |s| && SpaceRun(s[e..b]) ==> !CapWord(s[b..e2])
  {
    var b := SpaceRunEnd(s, e);
    if b > e then
      assert forall j :: 0 <= j < b - e ==> s[e..b][j] == s[e + j];
      WordEnd(s, b)
    else None
  }

  /** The ends of up to `k` further words chained after the word ending at `e`. */
  function Chain(s: string, e: nat, k: nat): (r: seq<nat>)
    requires e <= |s|
    ensures forall j :: 0 <= j < |r| ==> e < r[j] <= |s|
    ensures forall j, l :: 0 <= j < l < |r| ==> r[j] < r[l]
    ensures |r| <= k
    decreases k
  {
    if k == 0 then []
    else match NextWord(s, e)
      case None => []
      case Some(e') => [e'] + Chain(s, e', k - 1)
  }

  /** The ends of the one to four words the pattern can take from `i`. */
  function Ends(s: string, i: nat): (r: seq<nat>)
    requires i <= |s|
    ensures forall j :: 0 <= j < |r| ==> i < r[j] <= |s|
    ensures forall j, l :: 0 <= j < l < |r| ==> r[j] < r[l]
  {
    match WordEnd(s, i)
    case None => []
    case Some(e) => [e] + Chain(s, e, 3)
  }

  /** The last of `ends` at which `\b` holds: the greedy repetition backs off until it does. */
  function LastBoundary(s: string, ends: seq<nat>): (r: Option<nat>)
    requires forall j :: 0 <= j < |ends| ==> ends[j] <= |s|
    ensures r.Some? ==> r.value <= |s| && BoundaryAt(s, r.value)
    ensures r.Some? ==> exists m :: 0 <= m < |ends| && ends[m] == r.value &&
                                    forall j :: m < j < |ends| ==> !BoundaryAt(s, ends[j])
    ensures r.None? ==> forall j :: 0 <= j < |ends| ==> !BoundaryAt(s, ends[j])
  {
    if ends == [] then None
    else if BoundaryAt(s, ends[|ends| - 1]) then Some(ends[|ends| - 1])
    else LastBoundary(s, ends[..|ends| - 1])
  }

  /** End of the match of `ENTITY_RE` that starts at `i`, if there is one. */
  function MatchAt(s: string, i: nat): (r: Option<nat>)
    requires i <= |s|
    ensures r.Some? ==> i < r.value <= |s| && r.value in Ends(s, i)
    ensures r.Some? ==> BoundaryAt(s, i) && BoundaryAt(s, r.value)
    ensures r.Some? ==> forall j :: 0 <= j < |Ends(s, i)| && Ends(s, i)[j] > r.value ==> !BoundaryAt(s, Ends(s, i)[j])
    ensures r.None? ==> !BoundaryAt(s, i) || forall j :: 0 <= j < |Ends(s, i)| ==> !BoundaryAt(s, Ends(s, i)[j])
  {
    if BoundaryAt(s, i) then LastBoundary(s, Ends(s, i)) else None
  }

  /**
   * `ENTITY_RE.findall(s[i:])`: matches scanned left to right, without
   * overlap. `FindAllMatches` and `FindAllEntities` state what it returns.
   */
  function FindAll(s: string, i: nat): seq<string>
    requires i <= |s|
    decreases |s| - i
  {
    if i == |s| then []
    else match MatchAt(s, i)
      case Some(e) => [s[i..e]] + FindAll(s, e)
      case None => FindAll(s, i + 1)
  }

  /**
   * The repetition gives words back until `\b` holds: in "Acme Corp9" the
   * second word is followed by a digit, so only "Acme" is matched.
   */
  lemma BacksOffToBoundary()
    ensures MatchAt("Acme Corp9", 0) == Some(4)
  {
    var s := "Acme Corp9";
    assert LowerRunEnd(s, 1) == 4 by {
      assert LowerRunEnd(s, 4) == 4;
      assert LowerRunEnd(s, 3) == 4;
      assert LowerRunEnd(s, 2) == 4;
    }
    assert SpaceRunEnd(s, 4) == 5 by {
      assert SpaceRunEnd(s, 5) == 5;
    }
    assert LowerRunEnd(s, 6) == 9 by {
      assert LowerRunEnd(s, 9) == 9;
      assert LowerRunEnd(s, 8) == 9;
      assert LowerRunEnd(s, 7) == 9;
    }
    assert SpaceRunEnd(s, 9) == 9;
    assert Ends(s, 0) == [4, 9];
    assert !BoundaryAt(s, 9) && BoundaryAt(s, 4);
  }

  // ---------------------------------------------------------------------
  // What the matcher finds is an entity.
  // ---------------------------------------------------------------------

  /** One more word after an entity of at most `n` words gives one of at most `n + 1`. */
  lemma EntityExtend(s: string, i: nat, e: nat, e': nat, n: nat)
    requires i < e <= |s| && Entity(s[i..e], n) && NextWord(s, e) == Some(e')
    ensures Entity(s[i..e'], n + 1)
  {
    var b := SpaceRunEnd(s, e);
    var x := s[i..e'];
    assert x[..e - i] == s[i..e];
    assert x[e - i..b - i] == s[e..b];
    assert x[b - i..] == s[b..e'];
  }

  /** Each prefix of `s` from `i` that ends at `ends[j]` is an entity of at most `n + j + 1` words. */
  ghost predicate EntitiesUpTo(s: string, i: nat, ends: seq<nat>, n: nat)
    requires i <= |s|
    requires forall j :: 0 <= j < |ends| ==> i <= ends[j] <= |s|
  {
    forall j :: 0 <= j < |ends| ==> Entity(s[i..ends[j]], n + j + 1)
  }

  /** The words chained after an entity of `n` words extend it one word at a time. */
  lemma {:induction false} ChainEntities(s: string, i: nat, e: nat, k: nat, n: nat)
    requires i < e <= |s| && Entity(s[i..e], n)
    ensures EntitiesUpTo(s, i, Chain(s, e, k), n)
    decreases k, 0
  {
    if k > 0 && NextWord(s, e).Some? {
      var e' := NextWord(s, e).value;
      assert Chain(s, e, k) == [e'] + Chain(s, e', k - 1);
      EntityExtend(s, i, e, e', n);
      ChainFrom(s, i, e', k - 1, n);
    } else {
      assert Chain(s, e, k) == [];
    }
  }

  /** An entity of `n + 1` words ending at `e'`, then the words chained after it. */
  lemma {:induction false} ChainFrom(s: string, i: nat, e': nat, k: nat, n: nat)
    requires i < e' <= |s| && Entity(s[i..e'], n + 1)
    ensures EntitiesUpTo(s, i, [e'] + Chain(s, e', k), n)
    decreases k, 1
  {
    ChainEntities(s, i, e', k, n + 1);
    EntitiesCons(s, i, e', Chain(s, e', k), n);
  }

  /** An entity of `n + 1` words ending at `e'`, followed by ends of longer ones. */
  lemma EntitiesCons(s: string, i: nat, e': nat, rest: seq<nat>, n: nat)
    requires i <= e' <= |s| && forall j :: 0 <= j < |rest| ==> i <= rest[j] <= |s|
    requires Entity(s[i..e'], n + 1) && EntitiesUpTo(s, i, rest, n + 1)
    ensures EntitiesUpTo(s, i, [e'] + rest, n)
  {
    var c := [e'] + rest;
    forall j | 0 <= j < |c| ensures Entity(s[i..c[j]], n + j + 1) {
      if j > 0 {
        assert c[j] == rest[j - 1];
      }
    }
  }

  /** An entity of at most `n` words is also one of at most `m >= n` words. */
  lemma {:induction false} EntityWiden(x: string, n: nat, m: nat)
    requires Entity(x, n) && n <= m
    ensures Entity(x, m)
    decreases n
  {
    if !CapWord(x) {
      var a, b :| 0 < a < b < |x| && Entity(x[..a], n - 1) && SpaceRun(x[a..b]) && CapWord(x[b..]);
      EntityWiden(x[..a], n - 1, m - 1);
    }
  }

  /** Every match of `ENTITY_RE` is one to four capitalised words separated by whitespace. */
  lemma MatchIsEntity(s: string, i: nat)
    requires i <= |s| && MatchAt(s, i).Some?
    ensures Entity(s[i..MatchAt(s, i).value], 4)
  {
    var e1 := WordEnd(s, i).value;
    assert Entity(s[i..e1], 1);
    ChainEntities(s, i, e1, 3, 1);
    var ends := Ends(s, i);
    var e := MatchAt(s, i).value;
    var j :| 0 <= j < |ends| && ends[j] == e;
    if j > 0 {
      assert e == Chain(s, e1, 3)[j - 1];
    }
    EntityWiden(s[i..e], j + 1, 4);
  }

  /** Everything `findall` returns is an entity. */
  lemma {:induction false} FindAllEntities(s: string, i: nat)
    requires i <= |s|
    ensures forall x :: x in FindAll(s, i) ==> Entity(x, 4)
    decreases |s| - i
  {
    if i < |s| {
      var m := MatchAt(s, i);
      if m.Some? {
        var e := m.value;
        assert FindAll(s, i) == [s[i..e]] + FindAll(s, e);
        MatchIsEntity(s, i);
        FindAllEntities(s, e);
      } else {
        assert FindAll(s, i) == FindAll(s, i + 1);
        FindAllEntities(s, i + 1);
      }
    }
  }

  /** `x` is the text of the match of the pattern from position `a`. */
  ghost predicate MatchText(s: string, a: nat, x: string) {
    a < |s| && MatchAt(s, a).Some? && x == s[a..MatchAt(s, a).value]
  }

  /**
   * `findall` returns the texts of matches, each starting at or after `i`:
   * every element is the match of the pattern from some position.
   */
  lemma {:induction false} FindAllMatches(s: string, i: nat)
    requires i <= |s|
    ensures forall x :: x in FindAll(s, i) ==> exists a :: i <= a && MatchText(s, a, x)
    decreases |s| - i
  {
    if i < |s| {
      var m := MatchAt(s, i);
      if m.Some? {
        var e := m.value;
        var rest := FindAll(s, e);
        assert FindAll(s, i) == [s[i..e]] + rest;
        FindAllMatches(s, e);
        assert MatchText(s, i, s[i..e]);
        forall x | x in rest ensures exists a :: i <= a && MatchText(s, a, x) {
          var a :| e <= a && MatchText(s, a, x);
        }
      } else {
        assert FindAll(s, i) == FindAll(s, i + 1);
        FindAllMatches(s, i + 1);
      }
    }
  }

  // ---------------------------------------------------------------------
  // extract_entities.
  // ---------------------------------------------------------------------

  /** The limit on the number of entities returned. */
  const MaxEntities := 50

  /** Every value once, at its first occurrence. */
  function Dedup(xs: seq<string>): (d: seq<string>)
    ensures forall x :: x in d <==> x in xs
  {
    if xs == [] then []
    else
      var d := Dedup(xs[..|xs| - 1]);
      if xs[|xs| - 1] in d then d else d + [xs[|xs| - 1]]
  }

  predicate NoDuplicates(xs: seq<string>) {
    forall j, k :: 0 <= j < k < |xs| ==> xs[j] != xs[k]
  }

  /** The index of the first occurrence of `x` in `xs`. */
  function First(xs: seq<string>, x: string): (r: nat)
    requires x in xs
    ensures r < |xs| && xs[r] == x && x !in xs[..r]
  {
    if xs[0] == x then 0
    else
      assert x in xs[1..];
      var r := First(xs[1..], x);
      assert xs[..r + 1] == [xs[0]] + xs[1..][..r];
      r + 1
  }

  /** `extract_entities(text)`. */
  function Entities(text: string): (r: seq<string>)
    ensures |r| <= MaxEntities
    ensures forall x :: x in r ==> x in FindAll(text, 0)
  {
    Take(Dedup(FindAll(text, 0)), MaxEntities)
  }

  /**
   * `extract_entities`: the loop keeps a set of entities already seen and
   * appends each new one, then cuts the list at 50.
   */
  method ExtractEntities(text: string) returns (out: seq<string>)
    ensures out == Entities(text)
  {
    var ents := FindAll(text, 0);
    var seen: set<string> := {};
    out := [];
    for i := 0 to |ents|
      invariant out == Dedup(ents[..i])
      invariant forall x :: x in seen <==> x in out
    {
      assert ents[..i + 1][..i] == ents[..i];
      if ents[i] !in seen {
        seen := seen + {ents[i]};
        out := out + [ents[i]];
      }
    }
    assert ents[..|ents|] == ents;
    out := Take(out, MaxEntities);
  }

  /**
   * Deduplication keeps exactly the values of the input, each once, in the
   * order of their first occurrence.
   */
  lemma {:induction false} DedupOrder(xs: seq<string>)
    ensures var d := Dedup(xs);
      && NoDuplicates(d)
      && (forall j, k :: 0 <= j < k < |d| ==> First(xs, d[j]) < First(xs, d[k]))
  {
    if xs != [] {
      var init := xs[..|xs| - 1];
      var last := xs[|xs| - 1];
      DedupOrder(init);
      var d0 := Dedup(init);
      forall x | x in init ensures First(xs, x) == First(init, x) {
        FirstOfPrefix(xs, init, x);
      }
      if last !in d0 {
        var d := d0 + [last];
        forall j | 0 <= j < |d| ensures d[j] in xs {
          if j < |d0| {
            assert d0[j] in d0;
            var m :| 0 <= m < |init| && init[m] == d0[j];
            assert xs[m] == d[j];
          }
        }
        assert last !in init;
        assert First(xs, last) == |xs| - 1 by {
          assert last !in xs[..|xs| - 1];
        }
        forall j, k | 0 <= j < k < |d| ensures First(xs, d[j]) < First(xs, d[k]) {
          assert d[j] in init;
          if k < |d0| {
            assert d[k] in init;
          }
        }
      }
    }
  }

  /** The first occurrence of a value in a prefix is its first occurrence in the whole list. */
  lemma FirstOfPrefix(xs: seq<string>, p: seq<string>, x: string)
    requires |p| <= |xs| && p == xs[..|p|] && x in p
    ensures First(xs, x) == First(p, x)
  {
  }

  /**
   * `extract_entities` returns at most 50 distinct entities, each one to four
   * capitalised words, in the order in which they first occur among the
   * matches: the first 50 distinct matches, the cut applied after deduplication.
   */
  lemma EntitiesShape(text: string)
    ensures var es := Entities(text); var all := FindAll(text, 0);
      && |es| <= MaxEntities
      && NoDuplicates(es)
      && (forall x :: x in es ==> x in all && Entity(x, 4))
      && (forall j, k :: 0 <= j < k < |es| ==> First(all, es[j]) < First(all, es[k]))
      && es == Dedup(all)[..|es|]
      && |es| == (if |Dedup(all)| <= MaxEntities then |Dedup(all)| else MaxEntities)
  {
    var all := FindAll(text, 0);
    DedupOrder(all);
    FindAllEntities(text, 0);
    var d := Dedup(all);
    var es := Entities(text);
    assert es == d[..|es|];
    forall x | x in es ensures x in all && Entity(x, 4) {
      assert x in d;
    }
  }

  // ---------------------------------------------------------------------
  // extract_triplets.
  // ---------------------------------------------------------------------

  datatype Triplet = Triplet(subject: string, pred: string, obj: string)

  /** `PREDICATES`: the phrase looked for and the relation it names, in the order tried. */
  const Predicates: seq<(string, string)> := [
    ("acquired", "ACQUIRED"),
    ("sues", "SUES"),
    ("regulates", "REGULATES"),
    ("owns", "OWNS"),
    ("partners with", "PARTNERS_WITH")]

  /** The leftmost occurrence of `p` in `low` at or after `from`. */
  function FindFrom(low: string, p: string, from: nat): (r: Option<nat>)
    requires from <= |low|
    ensures r.Some? ==> from <= r.value && OccursAt(low, p, r.value)
    ensures forall j :: from <= j && (r.None? || j < r.value) ==> !OccursAt(low, p, j)
    decreases |low| - from
  {
    if OccursAt(low, p, from) then Some(from)
    else if from == |low| then None
    else FindFrom(low, p, from + 1)
  }

  /**
   * `re.split(re.escape(p), t, flags=re.IGNORECASE)[k:]` for the text from
   * `from` on, where `low` is `t` lower-cased: the pieces between successive
   * non-overlapping occurrences found left to right.
   */
  function SplitFrom(t: string, low: string, p: string, from: nat): (r: seq<string>)
    requires |low| == |t| && |p| > 0 && from <= |t|
    ensures |r| >= 1
    ensures var f := FindFrom(low, p, from);
      r[0] == t[from..if f.None? then |t| else f.value]
    ensures var f := FindFrom(low, p, from);
      f.Some? ==> |r| >= 2 && var g := FindFrom(low, p, f.value + |p|);
        r[1] == t[f.value + |p|..if g.None? then |t| else g.value]
    decreases |t| - from
  {
    match FindFrom(low, p, from)
    case None => [t[from..]]
    case Some(i) =>
      var rest := SplitFrom(t, low, p, i + |p|);
      assert ([t[from..i]] + rest)[1] == rest[0];
      [t[from..i]] + rest
  }

  /**
   * The triplet one phrase contributes for the stripped text `t`, whose
   * lower-cased form is `low`: the last entity before the phrase's first
   * occurrence and the first entity after it, when both exist.
   */
  function Relate(t: string, low: string, phrase: string, pred: string): Option<Triplet>
    requires |low| == |t| && |phrase| > 0
  {
    if !Contains(low, phrase) then None
    else
      var parts := SplitFrom(t, low, phrase, 0);
      if |parts| < 2 then None
      else
        var left := Entities(parts[0]);
        var right := Entities(parts[1]);
        if left != [] && right != [] then Some(Triplet(left[|left| - 1], pred, right[0])) else None
  }

  /** The triplet the phrase of `PREDICATES[k]` contributes for the stripped text `t`, if any. */
  function TripletFor(t: string, k: nat): Option<Triplet>
    requires k < |Predicates|
  {
    PhraseNonEmpty(k);
    Relate(t, Lower(t), Predicates[k].0, Predicates[k].1)
  }

  /** The triplets of the first `k` phrases, in `PREDICATES` order. */
  function TripletsUpTo(t: string, k: nat): seq<Triplet>
    requires k <= |Predicates|
  {
    if k == 0 then []
    else
      var found := TripletFor(t, k - 1);
      TripletsUpTo(t, k - 1) + (if found.Some? then [found.value] else [])
  }

  /** Every phrase of `PREDICATES` is non-empty. */
  lemma PhraseNonEmpty(k: nat)
    requires k < |Predicates|
    ensures |Predicates[k].0| > 0
  {
  }

  /** The relations of `PREDICATES` are pairwise distinct. */
  lemma RelationsDistinct(m: nat, n: nat)
    requires m < n < |Predicates|
    ensures Predicates[m].1 != Predicates[n].1
  {
    assert Predicates[m].1[0] != Predicates[n].1[0];
  }

  /** `extract_triplets`: one pass over `PREDICATES`, appending at most one triplet per phrase. */
  method ExtractTriplets(text: string) returns (triplets: seq<Triplet>)
    ensures triplets == TripletsUpTo(Strip(text), |Predicates|)
  {
    var t := Strip(text);
    triplets := [];
    var low := Lower(t);
    for k := 0 to |Predicates|
      invariant triplets == TripletsUpTo(t, k)
    {
      PhraseNonEmpty(k);
      var found := RelateOnce(t, low, Predicates[k].0, Predicates[k].1);
      if found.Some? {
        triplets := triplets + [found.value];
      }
    }
  }

  /** The body of the loop of `extract_triplets` for one phrase and its relation. */
  method RelateOnce(t: string, low: string, phrase: string, pred: string) returns (found: Option<Triplet>)
    requires |low| == |t| && |phrase| > 0
    ensures found == Relate(t, low, phrase, pred)
  {
    found := None;
    if Contains(low, phrase) {
      var parts := SplitFrom(t, low, phrase, 0);
      if |parts| >= 2 {
        var leftEnts := ExtractEntities(parts[0]);
        var rightEnts := ExtractEntities(parts[1]);
        if leftEnts != [] && rightEnts != [] {
          found := Some(Triplet(leftEnts[|leftEnts| - 1], pred, rightEnts[0]));
        }
      }
    }
  }

  /** The position in `PREDICATES` of the entry naming relation `r`, from `from` on; -1 when none does. */
  function RelationIndex(r: string, from: nat): (m: int)
    ensures m == -1 || (from <= m < |Predicates| && Predicates[m].1 == r)
    decreases |Predicates| - from
  {
    if from >= |Predicates| then -1
    else if Predicates[from].1 == r then from
    else RelationIndex(r, from + 1)
  }

  /** Every relation of `PREDICATES` is found at its own position. */
  lemma IndexOfRelation(m: nat)
    requires m < |Predicates|
    ensures RelationIndex(Predicates[m].1, 0) == m
  {
    forall n | 0 <= n < m ensures Predicates[n].1 != Predicates[m].1 {
      RelationsDistinct(n, m);
    }
    RelationIndexSkips(Predicates[m].1, 0, m);
  }

  lemma {:induction false} RelationIndexSkips(r: string, from: nat, m: nat)
    requires from <= m < |Predicates| && Predicates[m].1 == r
    requires forall n :: from <= n < m ==> Predicates[n].1 != r
    ensures RelationIndex(r, from) == m
    decreases m - from
  {
    if from < m {
      RelationIndexSkips(r, from + 1, m);
    }
  }

  /**
   * The triplets' relations are among the first `k` of `PREDICATES` and come
   * strictly in `PREDICATES` order, so none repeats.
   */
  predicate RelationsInOrder(ts: seq<Triplet>, k: nat) {
    && (forall j :: 0 <= j < |ts| ==> 0 <= RelationIndex(ts[j].pred, 0) < k)
    && (forall i, j :: 0 <= i < j < |ts| ==> RelationIndex(ts[i].pred, 0) < RelationIndex(ts[j].pred, 0))
  }

  /**
   * At most one triplet per phrase, so at most five, and their relations
   * come in `PREDICATES` order.
   */
  lemma {:induction false} TripletsOrdered(t: string, k: nat)
    requires k <= |Predicates|
    ensures |TripletsUpTo(t, k)| <= k && RelationsInOrder(TripletsUpTo(t, k), k)
  {
    if k > 0 {
      TripletsOrdered(t, k - 1);
      TripletRelation(t, k - 1);
      IndexOfRelation(k - 1);
      InOrderStep(TripletsUpTo(t, k - 1), TripletFor(t, k - 1), k);
    }
  }

  /** The triplet of `PREDICATES[k]` carries that entry's relation. */
  lemma TripletRelation(t: string, k: nat)
    requires k < |Predicates|
    ensures TripletFor(t, k).Some? ==> TripletFor(t, k).value.pred == Predicates[k].1
  {
  }

  /** Appending a triplet of the `k`-th relation, if any, keeps the relations in order. */
  lemma InOrderStep(prev: seq<Triplet>, found: Option<Triplet>, k: nat)
    requires 0 < k && RelationsInOrder(prev, k - 1)
    requires found.Some? ==> RelationIndex(found.value.pred, 0) == k - 1
    ensures RelationsInOrder(prev + (if found.Some? then [found.value] else []), k)
  {
  }

  /**
   * A phrase that occurs in the lower-cased text is found, so splitting on it
   * gives at least two parts: the text before its first occurrence (where it
   * occurs nowhere) and the text from there to the next occurrence or the end.
   */
  lemma SplitAtFirst(t: string, p: string)
    requires |p| > 0 && Contains(Lower(t), p)
    ensures FindFrom(Lower(t), p, 0).Some?
    ensures var i := FindFrom(Lower(t), p, 0).value;
      && |SplitFrom(t, Lower(t), p, 0)| >= 2
      && SplitFrom(t, Lower(t), p, 0)[0] == t[..i]
      && forall j :: 0 <= j < i ==> !OccursAt(Lower(t), p, j)
  {
    var low := Lower(t);
    var j :| 0 <= j <= |low| - |p| && OccursAt(low, p, j);
    assert FindFrom(low, p, 0).Some?;
  }

  /**
   * The triplet for a phrase exists exactly when the phrase occurs and both
   * parts around its first occurrence hold an entity; its subject is the last
   * entity returned for the left part, its object the first for the right.
   */
  lemma TripletForCases(t: string, k: nat)
    requires k < |Predicates|
    ensures var phrase := Predicates[k].0;
      TripletFor(t, k).Some? <==>
        && Contains(Lower(t), phrase)
        && Entities(SplitFrom(t, Lower(t), phrase, 0)[0]) != []
        && Entities(SplitFrom(t, Lower(t), phrase, 0)[1]) != []
    ensures TripletFor(t, k).Some? ==>
      var parts := SplitFrom(t, Lower(t), Predicates[k].0, 0);
      var left := Entities(parts[0]);
      && TripletFor(t, k).value.subject == left[|left| - 1]
      && TripletFor(t, k).value.pred == Predicates[k].1
      && TripletFor(t, k).value.obj == Entities(parts[1])[0]
  {
    if Contains(Lower(t), Predicates[k].0) {
      SplitAtFirst(t, Predicates[k].0);
    }
  }
}
