/** One file through the pipeline: classify, detect issues, annotate, and
    report, including the `process` label. */
module Pipeline {
  import opened Text
  import opened Classifier
  import opened Issues
  import opened Annotator

  const CompanyIncorporation := "Company Incorporation"

  /** The report's `process` field. Unlike every other check it reads the
      paragraph texts joined with no separator. */
  function ProcessLabel(docType: string, paras: seq<string>): (r: string)
    ensures r == CompanyIncorporation || r == Unknown
  {
    if Contains(Lower(docType), "incorporation") || Contains(Lower(Concat(paras)), "incorporation")
    then CompanyIncorporation
    else Unknown
  }

  /** "incorporation" opens the lower-cased name of the incorporation form. */
  lemma IncorporationFormNamesIncorporation()
    ensures Contains(Lower(IncorporationForm), "incorporation")
  {
    var name := Lower(IncorporationForm);
    var w := "incorporation";
    assert forall k | 0 <= k < |w| :: name[k] == w[k];
    assert name[..|w|] == w;
    assert OccursAt(name, w, 0);
  }

  /** A string without the letter "p" in either case has no
      "incorporation" in it once lower-cased. */
  lemma NoIncorporationIn(s: string)
    requires forall k | 0 <= k < |s| :: s[k] != 'p' && s[k] != 'P'
    ensures !Contains(Lower(s), "incorporation")
  {
    var t, w := Lower(s), "incorporation";
    forall i | 0 <= i <= |t| - |w| ensures !OccursAt(t, w, i) {
      assert w[5] == 'p';
      assert t[i..i + |w|][5] == t[i + 5] == LowerChar(s[i + 5]);
    }
  }

  /** No other name the classifier can return contains "incorporation"
      once lower-cased. */
  lemma OtherNamesLackIncorporation()
    ensures !Contains(Lower("Articles of Association"), "incorporation")
    ensures !Contains(Lower("Memorandum of Association"), "incorporation")
    ensures !Contains(Lower("Register of Members and Directors"), "incorporation")
    ensures !Contains(Lower("UBO Declaration Form"), "incorporation")
    ensures !Contains(Lower(Unknown), "incorporation")
  {
    NoIncorporationIn("Articles of Association");
    NoIncorporationIn("Memorandum of Association");
    NoIncorporationIn("Register of Members and Directors");
    NoIncorporationIn("UBO Declaration Form");
    NoIncorporationIn(Unknown);
  }

  /** Of the names the classifier can return, only the incorporation form
      contains "incorporation" once lower-cased. */
  lemma OnlyIncorporationFormNamesIncorporation(u: nat)
    requires u < |DocTypeKeywords|
    ensures Contains(Lower(DocTypeKeywords[u].0), "incorporation") <==> DocTypeKeywords[u].0 == IncorporationForm
  {
    OtherNamesLackIncorporation();
    IncorporationFormNamesIncorporation();
  }

  /** The process label is "Company Incorporation" exactly when the
      document is classified as the incorporation form or its paragraphs,
      run together and lower-cased, contain "incorporation". */
  lemma ProcessLabelOfClassified(paras: seq<string>)
    ensures var docType := ClassifyDocument(paras);
      ProcessLabel(docType, paras) == CompanyIncorporation
      <==> docType == IncorporationForm || Contains(Lower(Concat(paras)), "incorporation")
  {
    var docType := ClassifyDocument(paras);
    ClassifyResultIsKnownType(paras);
    if docType == Unknown {
      OtherNamesLackIncorporation();
    } else {
      var u :| 0 <= u < |DocTypeKeywords| && docType == DocTypeKeywords[u].0;
      OnlyIncorporationFormNamesIncorporation(u);
    }
  }

  /** Whenever the incorporation checklist applies, the process label is
      "Company Incorporation": a space-free word found in the space-joined
      text is also found when the paragraphs are run together. */
  lemma ChecklistImpliesIncorporationProcess(paras: seq<string>, docType: string)
    requires ChecklistApplies(docType, JoinedText(paras))
    ensures ProcessLabel(docType, paras) == CompanyIncorporation
  {
    if docType == IncorporationForm {
      IncorporationFormNamesIncorporation();
    } else {
      SpaceJoinedOccurrenceInConcat(paras, "incorporation");
    }
  }

  /** The converse fails: "incorporation" split across two paragraphs is
      seen by the process label but not by the checklist trigger. */
  lemma ProcessLabelSeesWordsAcrossParagraphs()
    ensures ProcessLabel(Unknown, ["incorp", "oration"]) == CompanyIncorporation
    ensures !ChecklistApplies(Unknown, JoinedText(["incorp", "oration"]))
  {
    var paras, w := ["incorp", "oration"], "incorporation";
    assert ProcessLabel(Unknown, paras) == CompanyIncorporation by {
      ConcatPair("incorp", "oration");
      var t := Lower(Concat(paras));
      assert forall k | 0 <= k < |w| :: t[k] == w[k];
      assert t[..|w|] == w;
      assert OccursAt(t, w, 0);
    }
    assert !ChecklistApplies(Unknown, JoinedText(paras)) by {
      JoinSpacePair("incorp", "oration");
      var t := JoinedText(paras);
      assert |t| == 14 && t[6] == ' ';
      forall i | 0 <= i <= |t| - |w| ensures !OccursAt(t, w, i) {
        assert t[i..i + |w|][6 - i] == t[6];
      }
    }
  }

  /** The records `find_issues` returns, as the annotator reads them. */
  function Records(issues: seq<Issue>): (r: seq<IssueFields>)
    ensures |r| == |issues|
    ensures forall k | 0 <= k < |issues| :: r[k].paraIndex == issues[k].ParaIndex()
  {
    seq(|issues|, k requires 0 <= k < |issues| => FieldsOf(issues[k]))
  }

  /** The report for one file, without the output path. */
  datatype Report = Report(filename: string, process: string, documentType: string, issues: seq<Issue>)

  /** `process_file` without the file system: classifies the paragraphs,
      detects the issues, annotates a copy of the document (which may
      already carry comments) and reports. */
  method ProcessFile(filename: string, paras: seq<string>, existing: seq<Comment>, accepts: Oracle)
    returns (report: Report, reviewed: Document)
    ensures report.documentType == ClassifyDocument(paras)
    ensures report.issues == Detect(paras, report.documentType)
    ensures report.process == ProcessLabel(report.documentType, paras)
    ensures report.filename == filename
    ensures fresh(reviewed)
    ensures reviewed.State() == AnnotateAll(DocState(paras, existing), Records(report.issues), accepts)
  {
    var docType := ClassifyDocument(paras);
    var issues := FindIssues(paras, docType);
    reviewed := AddCommentsAndSave(paras, existing, Records(issues), accepts);
    report := Report(filename, ProcessLabel(docType, paras), docType, issues);
  }
}
