/** String operations the rule engine is built from: ASCII lower-casing,
    the two ways paragraph texts are joined, and literal substring search
    (Python's `kw in text`). */
module Text {

  /** Lower-cases one ASCII letter; every other character is left alone. */
  function LowerChar(c: char): char {
    if 'A' <= c <= 'Z' then (c as int + 32) as char else c
  }

  /** `s.lower()`, restricted to ASCII letters. */
  function Lower(s: string): (r: string)
    ensures |r| == |s|
  {
    seq(|s|, i requires 0 <= i < |s| => LowerChar(s[i]))
  }

  /** The summed length of the texts. */
  function TotalLength(ps: seq<string>): nat {
    if |ps| == 0 then 0 else |ps[0]| + TotalLength(ps[1..])
  }

  /** Lower-casing turns each ASCII capital into its small letter, leaves no
      capital behind and changes nothing else. */
  lemma LowerOnlyChangesCapitals(s: string)
    ensures forall i | 0 <= i < |s| && 'A' <= s[i] <= 'Z' :: Lower(s)[i] as int == s[i] as int + 32
    ensures forall i | 0 <= i < |s| :: !('A' <= Lower(s)[i] <= 'Z')
    ensures forall i | 0 <= i < |s| :: !('A' <= s[i] <= 'Z') ==> Lower(s)[i] == s[i]
  {
  }

  /** `" ".join(ps)`: the texts separated by single spaces, one space
      between each two neighbours and none at either end. */
  function JoinSpace(ps: seq<string>): (r: string)
    ensures |r| == TotalLength(ps) + (if |ps| == 0 then 0 else |ps| - 1)
    ensures |ps| > 0 ==> r[..|ps[0]|] == ps[0]
    ensures |ps| > 1 ==> r[|ps[0]|] == ' '
  {
    if |ps| == 0 then ""
    else if |ps| == 1 then ps[0]
    else ps[0] + " " + JoinSpace(ps[1..])
  }

  /** `"".join(ps)`: the texts run together with no separator. */
  function Concat(ps: seq<string>): (r: string)
    ensures |r| == TotalLength(ps)
    ensures |ps| > 0 ==> r[..|ps[0]|] == ps[0]
  {
    if |ps| == 0 then "" else ps[0] + Concat(ps[1..])
  }

  lemma JoinSpacePair(a: string, b: string)
    ensures JoinSpace([a, b]) == a + " " + b
  {
    assert [a, b][1..] == [b];
  }

  lemma ConcatPair(a: string, b: string)
    ensures Concat([a, b]) == a + b
  {
    assert [a, b][1..] == [b];
    assert [b][1..] == [];
  }

  /** The lower-cased, space-joined paragraph text every rule reads. */
  function JoinedText(paras: seq<string>): string {
    Lower(JoinSpace(paras))
  }

  predicate OccursAt(s: string, w: string, i: int) {
    0 <= i && i + |w| <= |s| && s[i..i + |w|] == w
  }

  /** `w in s` on Python strings: a literal substring test. */
  predicate Contains(s: string, w: string) {
    exists i | 0 <= i <= |s| - |w| :: OccursAt(s, w, i)
  }

  /** Matching after lower-casing is case-insensitive: an occurrence of `w`
      in `s`, in whatever case, is an occurrence of the lower-cased `w` in
      the lower-cased `s`. */
  lemma ContainsLower(s: string, w: string)
    requires Contains(s, w)
    ensures Contains(Lower(s), Lower(w))
  {
    var i :| 0 <= i <= |s| - |w| && OccursAt(s, w, i);
    var t := Lower(s);
    forall k | 0 <= k < |w| ensures t[i + k] == Lower(w)[k] {
      assert s[i + k] == s[i..i + |w|][k];
    }
    assert t[i..i + |w|] == Lower(w);
    assert OccursAt(t, Lower(w), i);
  }

  lemma LowerAppend(a: string, b: string)
    ensures Lower(a + b) == Lower(a) + Lower(b)
  {
  }

  /** An occurrence found in one part is an occurrence in the whole. */
  lemma ContainsInPart(a: string, b: string, w: string)
    ensures Contains(a, w) ==> Contains(a + b, w)
    ensures Contains(b, w) ==> Contains(a + b, w)
  {
    if Contains(a, w) {
      var i :| 0 <= i <= |a| - |w| && OccursAt(a, w, i);
      assert (a + b)[i..i + |w|] == a[i..i + |w|];
      assert OccursAt(a + b, w, i);
    }
    if Contains(b, w) {
      var i :| 0 <= i <= |b| - |w| && OccursAt(b, w, i);
      assert (a + b)[|a| + i..|a| + i + |w|] == b[i..i + |w|];
      assert OccursAt(a + b, w, |a| + i);
    }
  }

  /** Text found in any paragraph is found in the space-joined text. */
  lemma {:induction false} ParagraphInJoin(ps: seq<string>, k: nat, w: string)
    requires k < |ps| && Contains(ps[k], w)
    ensures Contains(JoinSpace(ps), w)
    decreases k
  {
    if |ps| > 1 {
      var rest := JoinSpace(ps[1..]);
      assert JoinSpace(ps) == ps[0] + " " + rest;
      if k == 0 {
        assert JoinSpace(ps) == ps[0] + (" " + rest);
        ContainsInPart(ps[0], " " + rest, w);
      } else {
        ParagraphInJoin(ps[1..], k - 1, w);
        ContainsInPart(ps[0] + " ", rest, w);
      }
    }
  }

  /** Text found in any paragraph is found in the paragraphs run together. */
  lemma {:induction false} ParagraphInConcat(ps: seq<string>, k: nat, w: string)
    requires k < |ps| && Contains(ps[k], w)
    ensures Contains(Concat(ps), w)
    decreases k
  {
    var rest := Concat(ps[1..]);
    assert Concat(ps) == ps[0] + rest;
    if k == 0 {
      ContainsInPart(ps[0], rest, w);
    } else {
      ParagraphInConcat(ps[1..], k - 1, w);
      ContainsInPart(ps[0], rest, w);
    }
  }

  lemma OccurrenceChars(s: string, w: string, i: int)
    requires OccursAt(s, w, i)
    ensures forall k :: i <= k < i + |w| ==> s[k] in w
  {
    forall k | i <= k < i + |w| ensures s[k] in w {
      assert s[k] == s[i..i + |w|][k - i];
    }
  }

  /** A word without a space cannot straddle the separator of `a + " " + b`. */
  lemma ContainsAcrossSpace(a: string, b: string, w: string)
    requires ' ' !in w
    requires Contains(a + " " + b, w)
    ensures Contains(a, w) || Contains(b, w)
  {
    var s := a + " " + b;
    var i :| 0 <= i <= |s| - |w| && OccursAt(s, w, i);
    OccurrenceChars(s, w, i);
    assert s[|a|] == ' ';
    if i + |w| <= |a| {
      assert a[i..i + |w|] == s[i..i + |w|];
      assert OccursAt(a, w, i);
    } else {
      assert b[i - |a| - 1..i - |a| - 1 + |w|] == s[i..i + |w|];
      assert OccursAt(b, w, i - |a| - 1);
    }
  }

  /** A space-free word found in the lower-cased space-joined text is also
      found in the lower-cased text joined without separators. */
  lemma {:induction false} SpaceJoinedOccurrenceInConcat(ps: seq<string>, w: string)
    requires ' ' !in w
    requires Contains(Lower(JoinSpace(ps)), w)
    ensures Contains(Lower(Concat(ps)), w)
  {
    if |ps| == 0 {
      assert |w| == 0;
      assert OccursAt(Lower(Concat(ps)), w, 0);
    } else if |ps| == 1 {
      assert Concat(ps) == ps[0] + Concat(ps[1..]);
      assert Concat(ps[1..]) == "";
      assert Concat(ps) == JoinSpace(ps);
    } else {
      var p, rest := ps[0], ps[1..];
      LowerAppend(p + " ", JoinSpace(rest));
      LowerAppend(p, " ");
      assert Lower(" ") == " ";
      assert Lower(JoinSpace(ps)) == Lower(p) + " " + Lower(JoinSpace(rest));
      ContainsAcrossSpace(Lower(p), Lower(JoinSpace(rest)), w);
      LowerAppend(p, Concat(rest));
      assert Lower(Concat(ps)) == Lower(p) + Lower(Concat(rest));
      if Contains(Lower(p), w) {
        ContainsInPart(Lower(p), Lower(Concat(rest)), w);
      } else {
        SpaceJoinedOccurrenceInConcat(rest, w);
        ContainsInPart(Lower(p), Lower(Concat(rest)), w);
      }
    }
  }

  function DigitChar(d: nat): char
    requires d < 10
  {
    ('0' as int + d) as char
  }

  /** `str(n)` for a non-negative integer: its decimal digits, no leading zero. */
  function DecimalString(n: nat): (r: string)
    ensures |r| > 0
    ensures forall k | 0 <= k < |r| :: '0' <= r[k] <= '9'
    ensures r[0] == '0' ==> n == 0
    decreases n
  {
    if n < 10 then [DigitChar(n)] else DecimalString(n / 10) + [DigitChar(n % 10)]
  }

  /** Reads a string of decimal digits back as a number. */
  function DecimalValue(s: string): nat {
    if |s| == 0 then 0
    else
      var c := s[|s| - 1];
      10 * DecimalValue(s[..|s| - 1]) + (if '0' <= c <= '9' then c as int - '0' as int else 0)
  }

  /** The decimal rendering loses nothing: reading it back gives the number. */
  lemma {:induction false} DecimalRoundTrip(n: nat)
    ensures DecimalValue(DecimalString(n)) == n
    decreases n
  {
    var r := DecimalString(n);
    if n >= 10 {
      DecimalRoundTrip(n / 10);
      assert r[..|r| - 1] == DecimalString(n / 10);
    }
  }
}
