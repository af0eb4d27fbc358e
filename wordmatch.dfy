/** The two regular-expression shapes the issue detector uses, written out
    as predicates on strings: a search for a `\b`-bounded alternation
    (`re.search(r"\b(w1|w2|...)\b", s)`) and the number of matches of a
    `\b`-bounded word (`len(re.findall(r"\bw\b", s))`). */
module WordMatch {
  import opened Text

  /** `\w` over ASCII: a letter, a digit or the underscore. */
  predicate IsWordChar(c: char) {
    'a' <= c <= 'z' || 'A' <= c <= 'Z' || '0' <= c <= '9' || c == '_'
  }

  /** Position `k` of `s` holds a word character (outside `s` there is none). */
  predicate WordAt(s: string, k: int) {
    0 <= k < |s| && IsWordChar(s[k])
  }

  /** `\b` at position `k`: a word character on exactly one side. */
  predicate Boundary(s: string, k: int) {
    WordAt(s, k - 1) != WordAt(s, k)
  }

  /** `\bw\b` matches `s` starting at position `i`. */
  predicate WordMatchAt(s: string, w: string, i: int) {
    OccursAt(s, w, i) && Boundary(s, i) && Boundary(s, i + |w|)
  }

  /** `re.search(r"\b(alts[0]|alts[1]|...)\b", s)` finds a match. The engine
      backtracks into the alternation when the closing `\b` fails, so a
      match exists exactly when some alternative is bounded at some position. */
  function SearchBounded(s: string, alts: seq<string>): (r: bool)
    ensures r ==> exists k | 0 <= k < |alts| :: Contains(s, alts[k])
  {
    exists k, i | 0 <= k < |alts| && 0 <= i <= |s| :: WordMatchAt(s, alts[k], i)
  }

  predicate AllWordChars(w: string) {
    forall k | 0 <= k < |w| :: IsWordChar(w[k])
  }

  /** `len(re.findall(r"\bw\b", s[from:]))` as the scan performs it: after a
      match the scan resumes at the end of the match, otherwise one further on. */
  function FindAllFrom(s: string, w: string, from: nat): nat
    requires |w| > 0
    decreases |s| + 1 - from
  {
    if from > |s| then 0
    else if WordMatchAt(s, w, from) then 1 + FindAllFrom(s, w, from + |w|)
    else FindAllFrom(s, w, from + 1)
  }

  /** `len(re.findall(r"\bw\b", s))`. For a word made of word characters
      it is the number of positions where the bounded word matches. */
  function FindAll(s: string, w: string): (r: nat)
    requires |w| > 0
    ensures AllWordChars(w) ==> r == OccurrenceCount(s, w, 0)
  {
    var n := FindAllFrom(s, w, 0);
    assert AllWordChars(w) ==> n == OccurrenceCount(s, w, 0) by {
      if AllWordChars(w) {
        FindAllCountsOccurrences(s, w, 0);
      }
    }
    n
  }

  /** Reference definition: the number of positions at or after `from` where
      `\bw\b` matches. */
  function OccurrenceCount(s: string, w: string, from: nat): nat
    decreases |s| + 1 - from
  {
    if from > |s| then 0
    else (if WordMatchAt(s, w, from) then 1 else 0) + OccurrenceCount(s, w, from + 1)
  }

  /** Two matches of a bounded word made of word characters never overlap. */
  lemma NoOverlap(s: string, w: string, i: int, j: int)
    requires AllWordChars(w)
    requires WordMatchAt(s, w, i)
    requires i < j < i + |w|
    ensures !Boundary(s, j)
  {
    assert s[j - 1] == s[i..i + |w|][j - 1 - i] == w[j - 1 - i];
    assert s[j] == s[i..i + |w|][j - i] == w[j - i];
  }

  lemma {:induction false} CountSkipsNonMatches(s: string, w: string, a: nat, b: nat)
    requires a <= b
    requires forall j | a <= j < b :: !WordMatchAt(s, w, j)
    ensures OccurrenceCount(s, w, a) == OccurrenceCount(s, w, b)
    decreases b - a
  {
    if a < b && a <= |s| {
      CountSkipsNonMatches(s, w, a + 1, b);
    }
  }

  /** The findall scan counts exactly the positions where the bounded word
      matches, so skipping past each match loses nothing. */
  lemma {:induction false} FindAllCountsOccurrences(s: string, w: string, from: nat)
    requires |w| > 0 && AllWordChars(w)
    ensures FindAllFrom(s, w, from) == OccurrenceCount(s, w, from)
    decreases |s| + 1 - from
  {
    if from <= |s| {
      if WordMatchAt(s, w, from) {
        FindAllCountsOccurrences(s, w, from + |w|);
        forall j | from + 1 <= j < from + |w| ensures !WordMatchAt(s, w, j) {
          NoOverlap(s, w, from, j);
        }
        CountSkipsNonMatches(s, w, from + 1, from + |w|);
      } else {
        FindAllCountsOccurrences(s, w, from + 1);
      }
    }
  }

  /** A positive count means a bounded match exists, and vice versa. */
  lemma {:induction false} OccurrenceCountPositive(s: string, w: string, from: nat)
    ensures OccurrenceCount(s, w, from) > 0 <==> exists i | from <= i <= |s| :: WordMatchAt(s, w, i)
    decreases |s| + 1 - from
  {
    if from <= |s| {
      OccurrenceCountPositive(s, w, from + 1);
    }
  }
}
