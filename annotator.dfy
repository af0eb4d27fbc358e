/** The review annotator: every issue becomes a comment on the paragraph it
    points at, or failing that a "[Review note]" paragraph carrying the
    comment, or failing that a "[Review note]" paragraph followed by a
    "NOTE: " paragraph holding the text. The word-processing library is
    abstracted to a paragraph sequence and a comment list, and whether it
    accepts a comment is an oracle. */
module Annotator {
  import opened Issues

  const Author := "CorporateAgent"
  const Initials := "CA"
  const ReviewNote := "[Review note]"
  const NotePrefix := "NOTE: "

  /** A comment anchored to the runs of one paragraph. */
  datatype Comment = Comment(paragraph: nat, text: string, author: string, initials: string)

  /** The parts of a document the annotator reads and writes. */
  datatype DocState = DocState(paragraphs: seq<string>, comments: seq<Comment>)

  /** Where an issue's text ended up. */
  datatype Placement = OnTarget | OnReviewNote | PlainNote

  /** Whether the library accepts a comment with the given text on the
      paragraph with the given index and text; a refusal is the exception
      the annotator catches. */
  type Oracle = (nat, string, string) -> bool

  /** The fields of an issue record the annotator reads: `issue`,
      `suggestion`, `citation` and `para_index`. */
  datatype IssueFields = IssueFields(issue: string, suggestion: string, citation: string, paraIndex: Option<int>)

  /** The record `find_issues` produces for an issue, seen through those
      fields. */
  function FieldsOf(issue: Issue): IssueFields {
    IssueFields(issue.Description(), issue.Suggestion(), issue.Citation(), issue.ParaIndex())
  }

  /** The text attached for an issue: it opens with the description, holds
      the suggestion after the " Suggestion: " label, and closes with the
      citation in parentheses. */
  function CommentText(f: IssueFields): (r: string)
    ensures |r| == |f.issue| + |f.suggestion| + |f.citation| + 21
    ensures r[..|f.issue|] == f.issue
    ensures r[|f.issue|..|f.issue| + 13] == " Suggestion: "
    ensures r[|f.issue| + 13..|f.issue| + 13 + |f.suggestion|] == f.suggestion
    ensures r[|f.issue| + 13 + |f.suggestion|..|r| - |f.citation| - 1] == " (Ref: "
    ensures r[|r| - |f.citation| - 1..] == f.citation + ")"
  {
    var head := f.issue + " Suggestion: ";
    var body := head + f.suggestion + " (Ref: ";
    var r := body + (f.citation + ")");
    assert r[..|f.issue|] == head[..|f.issue|];
    assert r[|f.issue|..|f.issue| + 13] == head[|f.issue|..];
    assert r[|head|..|head| + |f.suggestion|] == (head + f.suggestion)[|head|..];
    assert r[|head| + |f.suggestion|..|body|] == body[|head| + |f.suggestion|..];
    r
  }

  /** The anchor points at a paragraph of a document with `count` paragraphs. */
  predicate Targets(anchor: Option<int>, count: nat) {
    anchor.Some? && 0 <= anchor.value < count
  }

  function WithParagraph(s: DocState, text: string): DocState {
    DocState(s.paragraphs + [text], s.comments)
  }

  function WithComment(s: DocState, at: nat, text: string): DocState {
    DocState(s.paragraphs, s.comments + [Comment(at, text, Author, Initials)])
  }

  /** The fallback: a "[Review note]" paragraph is appended; the comment
      goes on it when the library accepts it there, and otherwise a
      "NOTE: " paragraph holding the text follows it. */
  function ReviewNoteFallback(s: DocState, text: string, accepts: Oracle): (r: (DocState, Placement))
    ensures r.1 != OnTarget
    ensures r.1 == OnReviewNote <==> accepts(|s.paragraphs|, ReviewNote, text)
    ensures r.1 == OnReviewNote ==>
      r.0.paragraphs == s.paragraphs + [ReviewNote] &&
      r.0.comments == s.comments + [Comment(|s.paragraphs|, text, Author, Initials)]
    ensures r.1 == PlainNote ==>
      r.0.paragraphs == s.paragraphs + [ReviewNote, NotePrefix + text] &&
      r.0.comments == s.comments
  {
    var at := |s.paragraphs|;
    var noted := WithParagraph(s, ReviewNote);
    if accepts(at, ReviewNote, text) then (WithComment(noted, at, text), OnReviewNote)
    else (WithParagraph(noted, NotePrefix + text), PlainNote)
  }

  /** One pass of the annotation loop for one issue. The target test uses
      the paragraph count at that point, which includes notes appended for
      earlier issues. */
  function AnnotateOne(s: DocState, issue: IssueFields, accepts: Oracle): (r: (DocState, Placement))
    ensures r.1 == OnTarget <==>
      Targets(issue.paraIndex, |s.paragraphs|)
      && accepts(issue.paraIndex.value, s.paragraphs[issue.paraIndex.value], CommentText(issue))
    ensures r.1 == OnReviewNote <==>
      r.1 != OnTarget && accepts(|s.paragraphs|, ReviewNote, CommentText(issue))
    ensures r.1 == OnTarget ==>
      r.0 == WithComment(s, issue.paraIndex.value, CommentText(issue))
    ensures r.1 == OnReviewNote ==>
      r.0 == WithComment(WithParagraph(s, ReviewNote), |s.paragraphs|, CommentText(issue))
    ensures r.1 == PlainNote ==>
      r.0 == WithParagraph(WithParagraph(s, ReviewNote), NotePrefix + CommentText(issue))
  {
    var text := CommentText(issue);
    var anchor := issue.paraIndex;
    if Targets(anchor, |s.paragraphs|) then
      if accepts(anchor.value, s.paragraphs[anchor.value], text) then
        (WithComment(s, anchor.value, text), OnTarget)
      else ReviewNoteFallback(s, text, accepts)
    else ReviewNoteFallback(s, text, accepts)
  }

  /** The annotation loop over the first `|issues|` issues, as a fold that
      extends at the end, the order the loop runs in. */
  function AnnotateAll(s: DocState, issues: seq<IssueFields>, accepts: Oracle): DocState
    decreases |issues|
  {
    if |issues| == 0 then s
    else AnnotateOne(AnnotateAll(s, issues[..|issues| - 1], accepts), issues[|issues| - 1], accepts).0
  }

  /** `t` extends `s`: the old paragraphs and comments are untouched, in
      their order, and anything new comes after them. */
  predicate Extends(t: DocState, s: DocState) {
    |s.paragraphs| <= |t.paragraphs| && t.paragraphs[..|s.paragraphs|] == s.paragraphs &&
    |s.comments| <= |t.comments| && t.comments[..|s.comments|] == s.comments
  }

  /** Every comment from position `n` of the comment list on sits on a
      paragraph of the document and is signed by the annotator. */
  predicate SignedFrom(s: DocState, n: nat) {
    forall k | n <= k < |s.comments| ::
      s.comments[k].paragraph < |s.paragraphs| &&
      s.comments[k].author == Author && s.comments[k].initials == Initials
  }

  /** Annotating one issue appends at most two paragraphs and one comment,
      and the comment it adds sits on a paragraph of the document. */
  lemma AnnotateOneAppends(s: DocState, issue: IssueFields, accepts: Oracle)
    ensures var t := AnnotateOne(s, issue, accepts).0;
      Extends(t, s) &&
      |s.paragraphs| <= |t.paragraphs| <= |s.paragraphs| + 2 &&
      |s.comments| <= |t.comments| <= |s.comments| + 1 &&
      SignedFrom(t, |s.comments|)
  {
    var t := AnnotateOne(s, issue, accepts).0;
    assert t.paragraphs[..|s.paragraphs|] == s.paragraphs;
    assert t.comments[..|s.comments|] == s.comments;
  }

  /** The text of every issue lands in the document: as a new comment
      holding it, or as a new "NOTE: " paragraph holding it. */
  lemma AnnotateOneRecordsText(s: DocState, issue: IssueFields, accepts: Oracle)
    ensures var t := AnnotateOne(s, issue, accepts).0;
      var text := CommentText(issue);
      (|t.comments| == |s.comments| + 1 && t.comments[|s.comments|].text == text)
      || (|t.paragraphs| == |s.paragraphs| + 2 && t.paragraphs[|s.paragraphs| + 1] == NotePrefix + text)
  {
  }

  /** An issue that points at no paragraph of the document (no anchor, or
      an anchor out of range such as -1) never comments on an existing
      paragraph: it always appends a "[Review note]" paragraph. */
  lemma UntargetedIssueAppendsNote(s: DocState, issue: IssueFields, accepts: Oracle)
    requires !Targets(issue.paraIndex, |s.paragraphs|)
    ensures var t := AnnotateOne(s, issue, accepts).0;
      |t.paragraphs| > |s.paragraphs| && t.paragraphs[|s.paragraphs|] == ReviewNote &&
      forall k | |s.comments| <= k < |t.comments| :: t.comments[k].paragraph >= |s.paragraphs|
  {
  }

  /** The whole loop only ever appends: the original paragraphs and
      comments keep their order and text, at most two paragraphs and one
      comment are added per issue, and every added comment sits on a
      paragraph of the document and is signed by the annotator. */
  lemma {:induction false} AnnotateAllAppends(s: DocState, issues: seq<IssueFields>, accepts: Oracle)
    ensures var t := AnnotateAll(s, issues, accepts);
      Extends(t, s) &&
      |t.paragraphs| <= |s.paragraphs| + 2 * |issues| &&
      |t.comments| <= |s.comments| + |issues| &&
      SignedFrom(t, |s.comments|)
    decreases |issues|
  {
    if |issues| > 0 {
      var prefix := issues[..|issues| - 1];
      var m := AnnotateAll(s, prefix, accepts);
      AnnotateAllAppends(s, prefix, accepts);
      AnnotateOneAppends(m, issues[|issues| - 1], accepts);
      var t := AnnotateAll(s, issues, accepts);
      assert t.paragraphs[..|s.paragraphs|] == m.paragraphs[..|s.paragraphs|];
      assert t.comments[..|s.comments|] == m.comments[..|s.comments|];
    }
  }

  /** `t` holds `text` beyond what `s` had: in a comment added after the
      comments of `s`, or in a "NOTE: " paragraph added after its
      paragraphs. */
  predicate HoldsText(t: DocState, s: DocState, text: string) {
    (exists j | |s.comments| <= j < |t.comments| :: t.comments[j].text == text) ||
    (exists j | |s.paragraphs| <= j < |t.paragraphs| :: t.paragraphs[j] == NotePrefix + text)
  }

  /** Appending to a document keeps what it holds. */
  lemma HoldsTextExtends(s: DocState, m: DocState, t: DocState, text: string)
    requires Extends(t, m) && HoldsText(m, s, text)
    ensures HoldsText(t, s, text)
  {
    if exists j | |s.comments| <= j < |m.comments| :: m.comments[j].text == text {
      var j :| |s.comments| <= j < |m.comments| && m.comments[j].text == text;
      assert t.comments[j] == t.comments[..|m.comments|][j];
      assert t.comments[j].text == text;
    } else {
      var j :| |s.paragraphs| <= j < |m.paragraphs| && m.paragraphs[j] == NotePrefix + text;
      assert t.paragraphs[j] == t.paragraphs[..|m.paragraphs|][j];
      assert t.paragraphs[j] == NotePrefix + text;
    }
  }

  /** No issue is lost: the text of every issue of the loop is in the final
      document, in an added comment or in an added "NOTE: " paragraph. */
  lemma {:induction false} AnnotateAllRecordsEveryIssue(s: DocState, issues: seq<IssueFields>, accepts: Oracle, k: nat)
    requires k < |issues|
    ensures HoldsText(AnnotateAll(s, issues, accepts), s, CommentText(issues[k]))
    decreases |issues|
  {
    var prefix, last := issues[..|issues| - 1], issues[|issues| - 1];
    var m := AnnotateAll(s, prefix, accepts);
    var t := AnnotateAll(s, issues, accepts);
    assert t == AnnotateOne(m, last, accepts).0;
    AnnotateAllAppends(s, prefix, accepts);
    AnnotateOneAppends(m, last, accepts);
    var text := CommentText(issues[k]);
    if k == |issues| - 1 {
      AnnotateOneRecordsText(m, last, accepts);
      if |t.comments| == |m.comments| + 1 && t.comments[|m.comments|].text == text {
        assert |s.comments| <= |m.comments| < |t.comments|;
      } else {
        assert |s.paragraphs| <= |m.paragraphs| + 1 < |t.paragraphs|;
        assert t.paragraphs[|m.paragraphs| + 1] == NotePrefix + text;
      }
    } else {
      assert prefix[k] == issues[k];
      AnnotateAllRecordsEveryIssue(s, prefix, accepts, k);
      HoldsTextExtends(s, m, t, text);
    }
  }

  /** The annotated document starts with the paragraphs and the comments
      the file was opened with, and every comment after those sits on one of
      its paragraphs and is signed by the annotator. */
  lemma AnnotatedDocumentWellFormed(paras: seq<string>, existing: seq<Comment>, issues: seq<IssueFields>, accepts: Oracle)
    ensures var t := AnnotateAll(DocState(paras, existing), issues, accepts);
      |paras| <= |t.paragraphs| && t.paragraphs[..|paras|] == paras &&
      |existing| <= |t.comments| && t.comments[..|existing|] == existing &&
      SignedFrom(t, |existing|)
  {
    AnnotateAllAppends(DocState(paras, existing), issues, accepts);
  }

  /** The document being annotated, with its paragraph list and comment
      list updated in place. */
  class Document {
    var paragraphs: seq<string>
    var comments: seq<Comment>

    function State(): DocState
      reads this
    {
      DocState(paragraphs, comments)
    }

    /** Opens a document whose paragraph texts are `paras` and which
        already carries the comments `existing`. */
    constructor Open(paras: seq<string>, existing: seq<Comment>)
      ensures State() == DocState(paras, existing)
    {
      paragraphs := paras;
      comments := existing;
    }

    /** `add_paragraph`: appends a paragraph and returns its index. */
    method AddParagraph(text: string) returns (index: nat)
      modifies this
      ensures index == old(|paragraphs|)
      ensures State() == WithParagraph(old(State()), text)
    {
      index := |paragraphs|;
      paragraphs := paragraphs + [text];
    }

    /** `add_comment`: attaches a comment to paragraph `at` when the
        library accepts it, and otherwise changes nothing and reports the
        failure. */
    method AddComment(at: nat, text: string, accepts: Oracle) returns (ok: bool)
      requires at < |paragraphs|
      modifies this
      ensures ok == accepts(at, old(paragraphs[at]), text)
      ensures State() == if ok then WithComment(old(State()), at, text) else old(State())
    {
      ok := accepts(at, paragraphs[at], text);
      if ok {
        comments := comments + [Comment(at, text, Author, Initials)];
      }
    }

    /** One iteration of the annotation loop: the target paragraph when the
        anchor is in range and the comment is accepted, otherwise the
        review-note fallback. */
    method AnnotateIssue(issue: IssueFields, accepts: Oracle) returns (placement: Placement)
      modifies this
      ensures (State(), placement) == AnnotateOne(old(State()), issue, accepts)
    {
      var text := CommentText(issue);
      var anchor := issue.paraIndex;
      if anchor.Some? && 0 <= anchor.value < |paragraphs| {
        var ok := AddComment(anchor.value, text, accepts);
        if ok {
          return OnTarget;
        }
      }
      var note := AddParagraph(ReviewNote);
      var ok := AddComment(note, text, accepts);
      if ok {
        placement := OnReviewNote;
      } else {
        var _ := AddParagraph(NotePrefix + text);
        placement := PlainNote;
      }
    }
  }

  /** `add_comments_and_save` without the file I/O: opens the document and
      annotates the issues in order. */
  method AddCommentsAndSave(paras: seq<string>, existing: seq<Comment>, issues: seq<IssueFields>, accepts: Oracle)
    returns (doc: Document)
    ensures fresh(doc)
    ensures doc.State() == AnnotateAll(DocState(paras, existing), issues, accepts)
  {
    doc := new Document.Open(paras, existing);
    for i := 0 to |issues|
      invariant doc.State() == AnnotateAll(DocState(paras, existing), issues[..i], accepts)
    {
      var _ := doc.AnnotateIssue(issues[i], accepts);
      assert issues[..i + 1][..i] == issues[..i];
    }
    assert issues[..|issues|] == issues;
  }
}
