/** The keyword classifier: the first document type, in table order, one of
    whose keywords occurs literally in the lower-cased joined text. */
module Classifier {
  import opened Text

  const Unknown := "Unknown"

  /** The document-type table, in its declared order; each row is a type
      and its keywords, in their declared order. */
  const DocTypeKeywords: seq<(string, seq<string>)> := [
    ("Articles of Association",
      ["articles of association", "articles of association (aoa)", "aoa", "articles"]),
    ("Memorandum of Association",
      ["memorandum of association", "memorandum", "moa"]),
    ("Register of Members and Directors",
      ["register of members", "register of directors", "register of members and directors"]),
    ("Incorporation Application Form",
      ["incorporation application", "application form"]),
    ("UBO Declaration Form",
      ["ubo declaration", "ultimate beneficial owner"])
  ]

  /** Some keyword of row `t` is a substring of `text`. */
  predicate RowMatches(text: string, t: nat)
    requires t < |DocTypeKeywords|
  {
    var keywords := DocTypeKeywords[t].1;
    exists k | 0 <= k < |keywords| :: Contains(text, keywords[k])
  }

  /** Row `t` is the first row whose keywords match `text`. */
  predicate FirstMatchingRow(text: string, t: nat)
  {
    t < |DocTypeKeywords| && RowMatches(text, t) &&
    forall u | 0 <= u < t :: !RowMatches(text, u)
  }

  /** The search over the table from row `t` on, returning at the first row
      with a matching keyword. */
  function ClassifyFrom(text: string, t: nat): (r: string)
    requires t <= |DocTypeKeywords|
    ensures r == Unknown <==> forall u | t <= u < |DocTypeKeywords| :: !RowMatches(text, u)
    ensures r != Unknown ==>
      exists u | t <= u < |DocTypeKeywords| ::
        r == DocTypeKeywords[u].0 && RowMatches(text, u) &&
        forall v | t <= v < u :: !RowMatches(text, v)
    decreases |DocTypeKeywords| - t
  {
    if t == |DocTypeKeywords| then Unknown
    else if RowMatches(text, t) then DocTypeKeywords[t].0
    else ClassifyFrom(text, t + 1)
  }

  /** `classify_document`: the result is "Unknown" exactly when no keyword of
      any type occurs, and otherwise the name of the first matching row. */
  function ClassifyDocument(paras: seq<string>): (r: string)
    ensures r == Unknown <==> forall u | 0 <= u < |DocTypeKeywords| :: !RowMatches(JoinedText(paras), u)
    ensures r != Unknown ==>
      exists u: nat :: FirstMatchingRow(JoinedText(paras), u) && r == DocTypeKeywords[u].0
  {
    ClassifyFrom(JoinedText(paras), 0)
  }

  lemma DistinctTypeNames()
    ensures forall u, v | 0 <= u < v < |DocTypeKeywords| :: DocTypeKeywords[u].0 != DocTypeKeywords[v].0
    ensures forall u | 0 <= u < |DocTypeKeywords| :: DocTypeKeywords[u].0 != Unknown
  {
  }

  /** The converse of ClassifyDocument's contract: whenever row `t` is the
      first matching row, its type is the result. */
  lemma ClassifyIsFirstMatch(paras: seq<string>, t: nat)
    requires FirstMatchingRow(JoinedText(paras), t)
    ensures ClassifyDocument(paras) == DocTypeKeywords[t].0
  {
    var text := JoinedText(paras);
    var r := ClassifyDocument(paras);
    DistinctTypeNames();
    assert r != Unknown;
    var u: nat :| FirstMatchingRow(text, u) && r == DocTypeKeywords[u].0;
    assert u == t;
  }

  /** The result is a key of the table or "Unknown". */
  lemma ClassifyResultIsKnownType(paras: seq<string>)
    ensures var r := ClassifyDocument(paras);
      r == Unknown || exists u | 0 <= u < |DocTypeKeywords| :: r == DocTypeKeywords[u].0
  {
  }

  /** When two types both have matching keywords, the later one is never
      the result. */
  lemma EarlierTypeWins(paras: seq<string>, t: nat, u: nat)
    requires t < u < |DocTypeKeywords|
    requires RowMatches(JoinedText(paras), t) && RowMatches(JoinedText(paras), u)
    ensures ClassifyDocument(paras) != DocTypeKeywords[u].0
  {
    var text := JoinedText(paras);
    var r := ClassifyDocument(paras);
    DistinctTypeNames();
    var w: nat :| FirstMatchingRow(text, w) && r == DocTypeKeywords[w].0;
    assert w <= t;
  }

  /** Text naming both "articles" and "memorandum" is classified as Articles
      of Association, the row listed first. */
  lemma ArticlesBeforeMemorandum(paras: seq<string>)
    requires Contains(JoinedText(paras), "articles")
    requires Contains(JoinedText(paras), "memorandum")
    ensures ClassifyDocument(paras) == "Articles of Association"
  {
    var text := JoinedText(paras);
    assert DocTypeKeywords[0].1[3] == "articles";
    assert RowMatches(text, 0);
    ClassifyIsFirstMatch(paras, 0);
  }

  /** A keyword of row `u`, written in any case in any one paragraph, makes
      the document classified: the result is not "Unknown", and no row after
      `u` is the result. */
  lemma KeywordInParagraphIsClassified(paras: seq<string>, k: nat, u: nat, j: nat, w: string)
    requires k < |paras| && u < |DocTypeKeywords| && j < |DocTypeKeywords[u].1|
    requires Contains(paras[k], w) && Lower(w) == DocTypeKeywords[u].1[j]
    ensures ClassifyDocument(paras) != Unknown
    ensures forall v | u < v < |DocTypeKeywords| :: ClassifyDocument(paras) != DocTypeKeywords[v].0
  {
    ParagraphInJoin(paras, k, w);
    ContainsLower(JoinSpace(paras), w);
    assert RowMatches(JoinedText(paras), u);
    forall v | u < v < |DocTypeKeywords| ensures ClassifyDocument(paras) != DocTypeKeywords[v].0 {
      DistinctTypeNames();
    }
  }

  /** An empty document has no keyword in it and is "Unknown". */
  lemma EmptyDocumentIsUnknown()
    ensures ClassifyDocument([]) == Unknown
  {
    var text := JoinedText([]);
    assert text == "";
    forall u | 0 <= u < |DocTypeKeywords| ensures !RowMatches(text, u) {
      var keywords := DocTypeKeywords[u].1;
      forall k | 0 <= k < |keywords| ensures !Contains(text, keywords[k]) {
        assert |keywords[k]| > 0;
      }
    }
  }
}
