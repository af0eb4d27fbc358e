/** The issue detector: five independent checks over the lower-cased joined
    text, run in a fixed order, each appending one issue record when it
    fires. */
module Issues {
  import opened Text
  import opened WordMatch

  datatype Option<T> = None | Some(value: T)

  const High := "High"
  const Medium := "Medium"
  const IncorporationForm := "Incorporation Application Form"

  /** One issue record, by the check that produced it. The record's six
      fields (section, issue, severity, suggestion, citation, para_index) are
      the member functions below; each check fills them with fixed text,
      except the signatory anchor, the `may` count embedded in the binding
      text and the missing checklist names. */
  datatype Issue =
    | NonAdgmCourts
    | NoSignatureBlock(lastParagraph: int)
    | NonBindingLanguage(mayCount: nat)
    | ChecklistIncomplete(missing: set<string>)
    | NoAdgmMention
  {
    function Section(): string {
      match this
      case NonAdgmCourts => "Jurisdiction"
      case NoSignatureBlock(_) => "Signatory"
      case NonBindingLanguage(_) => "Binding language"
      case ChecklistIncomplete(_) => "Checklist"
      case NoAdgmMention => "Jurisdiction"
    }

    /** The `issue` field: the human-readable description. */
    function Description(): string {
      match this
      case NonAdgmCourts =>
        "Document references non-ADGM courts (UAE Federal/Dubai/Abu Dhabi courts)."
      case NoSignatureBlock(_) =>
        "No obvious signature block or date found at end of document."
      case NonBindingLanguage(n) =>
        "Document uses 'may' often (" + DecimalString(n)
          + " times) and has no 'shall'\U{2014}may be non-binding or ambiguous."
      case ChecklistIncomplete(missing) =>
        "Missing documents from incorporation checklist: " + ListRepr(InDeclaredOrder(missing))
      case NoAdgmMention =>
        "Document never mentions 'ADGM' or 'Abu Dhabi Global Market'."
    }

    /** Every record is rated "High" or "Medium". */
    function Severity(): (r: string)
      ensures r == High || r == Medium
    {
      match this
      case NonAdgmCourts => High
      case NoSignatureBlock(_) => High
      case NonBindingLanguage(_) => Medium
      case ChecklistIncomplete(_) => High
      case NoAdgmMention => Medium
    }

    function Suggestion(): string {
      match this
      case NonAdgmCourts =>
        "Replace jurisdiction reference with 'Abu Dhabi Global Market (ADGM)' where appropriate."
      case NoSignatureBlock(_) =>
        "Add a signature block with printed name, signature, capacity and date."
      case NonBindingLanguage(_) =>
        "Use clearer mandatory language (e.g., 'shall') for obligations where intended."
      case ChecklistIncomplete(_) =>
        "Upload the missing documents (e.g., Register of Members and Directors)."
      case NoAdgmMention =>
        "Confirm and add ADGM references where jurisdiction matters."
    }

    function Citation(): string {
      match this
      case NonAdgmCourts => "ADGM Companies Regulations 2020"
      case NoSignatureBlock(_) => "ADGM Registration checklist"
      case NonBindingLanguage(_) => "ADGM Companies Regulations 2020"
      case ChecklistIncomplete(_) => "ADGM Registration Checklist"
      case NoAdgmMention => "ADGM Companies Regulations 2020"
    }

    /** The `para_index` field: only the signatory issue is anchored. */
    function ParaIndex(): (r: Option<int>)
      ensures r.Some? <==> this.NoSignatureBlock?
      ensures r.Some? ==> r.value == this.lastParagraph
    {
      match this
      case NoSignatureBlock(last) => Some(last)
      case _ => None
    }

    /** The position of the producing check in the order the checks run. */
    function CheckOrder(): nat {
      match this
      case NonAdgmCourts => 0
      case NoSignatureBlock(_) => 1
      case NonBindingLanguage(_) => 2
      case ChecklistIncomplete(_) => 3
      case NoAdgmMention => 4
    }
  }

  /** The alternatives of the jurisdiction pattern. */
  const CourtPhrases: seq<string> :=
    ["uae federal", "federal court", "federal courts", "dubai court", "abu dhabi court"]

  /** The alternatives of the signature-block pattern. */
  const SignaturePhrases: seq<string> :=
    ["signature", "signed by", "for and on behalf", "date:"]

  /** The incorporation checklist, in its declared order. */
  const ExpectedDocuments: seq<string> := [
    "articles of association", "memorandum of association",
    "register of members and directors", "incorporation application form",
    "ubo declaration form"]

  /** Python's rendering of a list of strings: `['a', 'b']`. */
  function ListRepr(names: seq<string>): (r: string)
    ensures |r| >= 2 && r[0] == '[' && r[|r| - 1] == ']'
    ensures names == [] ==> r == "[]"
  {
    "[" + ReprItems(names) + "]"
  }

  function ReprItems(names: seq<string>): string {
    if |names| == 0 then ""
    else if |names| == 1 then "'" + names[0] + "'"
    else "'" + names[0] + "', " + ReprItems(names[1..])
  }

  /** Every name of the list appears in the rendering, in quotes. */
  lemma {:induction false} ReprItemsLists(names: seq<string>, k: nat)
    requires k < |names|
    ensures Contains(ReprItems(names), "'" + names[k] + "'")
    decreases |names|
  {
    var quoted := "'" + names[0] + "'";
    if |names| == 1 {
      assert ReprItems(names) == quoted;
      assert OccursAt(quoted, quoted, 0);
    } else {
      var rest := ReprItems(names[1..]);
      assert ReprItems(names) == "'" + names[0] + "', " + rest;
      if k == 0 {
        assert ReprItems(names) == quoted + (", " + rest);
        assert OccursAt(quoted, quoted, 0);
        ContainsInPart(quoted, ", " + rest, quoted);
      } else {
        ReprItemsLists(names[1..], k - 1);
        ContainsInPart("'" + names[0] + "', ", rest, "'" + names[1..][k - 1] + "'");
      }
    }
  }

  /** The members of `missing` that are checklist names, listed in the
      checklist's declared order. */
  function InDeclaredOrder(missing: set<string>): (r: seq<string>)
    ensures forall d :: d in r <==> d in missing && d in ExpectedDocuments
    ensures forall i, j | 0 <= i < j < |r| :: r[i] != r[j]
  {
    Filter(ExpectedDocuments, missing)
  }

  function Filter(names: seq<string>, keep: set<string>): (r: seq<string>)
    ensures forall d :: d in r <==> d in names && d in keep
    ensures (forall i, j | 0 <= i < j < |names| :: names[i] != names[j]) ==>
      forall i, j | 0 <= i < j < |r| :: r[i] != r[j]
  {
    if |names| == 0 then []
    else (if names[0] in keep then [names[0]] else []) + Filter(names[1..], keep)
  }

  // ---------------------------------------------------------------------
  // The conditions the five checks test

  /** `paras[-8:]`: the last eight paragraphs, or all of them when fewer. */
  function LastEight(paras: seq<string>): (r: seq<string>)
    ensures |r| == if |paras| < 8 then |paras| else 8
    ensures r == paras[|paras| - |r|..]
  {
    if |paras| <= 8 then paras else paras[|paras| - 8..]
  }

  /** The lower-cased, space-joined text of the last eight paragraphs. */
  function TailText(paras: seq<string>): string {
    JoinedText(LastEight(paras))
  }

  predicate CourtsReferenced(text: string) {
    SearchBounded(text, CourtPhrases)
  }

  predicate SignatureBlockFound(tail: string) {
    SearchBounded(tail, SignaturePhrases)
  }

  function MayCount(text: string): nat {
    FindAll(text, "may")
  }

  function ShallCount(text: string): nat {
    FindAll(text, "shall")
  }

  predicate ChecklistApplies(docType: string, text: string) {
    docType == IncorporationForm || Contains(text, "incorporation")
  }

  /** The checklist names that occur in the text. */
  function PresentDocuments(text: string): set<string> {
    set d | d in ExpectedDocuments && Contains(text, d)
  }

  /** `expected - present`. */
  function MissingDocuments(text: string): set<string> {
    (set d | d in ExpectedDocuments) - PresentDocuments(text)
  }

  predicate AdgmMentioned(text: string) {
    Contains(text, "adgm")
  }

  // ---------------------------------------------------------------------
  // The detector

  /** What the five checks observe about a document. */
  datatype Observations = Observations(
    courts: bool,
    signatureBlock: bool,
    mayCount: nat,
    shallCount: nat,
    checklistApplies: bool,
    missing: set<string>,
    adgm: bool)

  function Observe(paras: seq<string>, docType: string): Observations {
    var text := JoinedText(paras);
    Observations(
      CourtsReferenced(text),
      SignatureBlockFound(TailText(paras)),
      MayCount(text),
      ShallCount(text),
      ChecklistApplies(docType, text),
      MissingDocuments(text),
      AdgmMentioned(text))
  }

  /** `if fires: issues.append(issue)`. */
  function AppendIf(issues: seq<Issue>, fires: bool, issue: Issue): seq<Issue> {
    if fires then issues + [issue] else issues
  }

  /** The issues the checks append, in the order the checks run. */
  function Emit(o: Observations, paraCount: nat): seq<Issue> {
    var afterCourts := AppendIf([], o.courts, NonAdgmCourts);
    var afterSignatory := AppendIf(afterCourts, !o.signatureBlock, NoSignatureBlock(paraCount - 1));
    var afterBinding :=
      AppendIf(afterSignatory, o.mayCount > 3 && o.shallCount == 0, NonBindingLanguage(o.mayCount));
    var afterChecklist :=
      AppendIf(afterBinding, o.checklistApplies && o.missing != {}, ChecklistIncomplete(o.missing));
    AppendIf(afterChecklist, !o.adgm, NoAdgmMention)
  }

  /** What `find_issues` returns. */
  function Detect(paras: seq<string>, docType: string): seq<Issue> {
    Emit(Observe(paras, docType), |paras|)
  }

  /** The loop of `find_issues` that collects the checklist names found in
      the text, visiting the expected set in no particular order. */
  method CollectPresent(joined: string) returns (present: set<string>)
    ensures present == PresentDocuments(joined)
  {
    var expected := set d | d in ExpectedDocuments;
    present := {};
    var unvisited := expected;
    while unvisited != {}
      invariant unvisited <= expected
      invariant present == set d | d in expected - unvisited && Contains(joined, d)
      decreases unvisited
    {
      var k :| k in unvisited;
      if Contains(joined, k) {
        present := present + {k};
      }
      unvisited := unvisited - {k};
    }
  }

  /** `find_issues`: runs the five checks in order, appending to the list. */
  method FindIssues(paras: seq<string>, docType: string) returns (issues: seq<Issue>)
    ensures issues == Detect(paras, docType)
  {
    issues := [];
    var joined := JoinedText(paras);

    var courts := CourtsReferenced(joined);
    if courts {
      issues := issues + [NonAdgmCourts];
    }
    ghost var afterCourts := issues;
    assert afterCourts == AppendIf([], courts, NonAdgmCourts);

    var tail := TailText(paras);
    var signed := SignatureBlockFound(tail);
    if !signed {
      issues := issues + [NoSignatureBlock(|paras| - 1)];
    }
    ghost var afterSignatory := issues;
    assert afterSignatory == AppendIf(afterCourts, !signed, NoSignatureBlock(|paras| - 1));

    var mayCount := FindAll(joined, "may");
    var shallCount := FindAll(joined, "shall");
    if mayCount > 3 && shallCount == 0 {
      issues := issues + [NonBindingLanguage(mayCount)];
    }
    ghost var afterBinding := issues;
    assert afterBinding
      == AppendIf(afterSignatory, mayCount > 3 && shallCount == 0, NonBindingLanguage(mayCount));

    var applies := docType == IncorporationForm || Contains(joined, "incorporation");
    ghost var missingAll := MissingDocuments(joined);
    if applies {
      var present := CollectPresent(joined);
      var missing := (set d | d in ExpectedDocuments) - present;
      assert missing == missingAll;
      if missing != {} {
        issues := issues + [ChecklistIncomplete(missing)];
      }
    }
    ghost var afterChecklist := issues;
    assert afterChecklist
      == AppendIf(afterBinding, applies && missingAll != {}, ChecklistIncomplete(missingAll));

    var adgm := Contains(joined, "adgm");
    if !adgm {
      issues := issues + [NoAdgmMention];
    }
    assert issues == AppendIf(afterChecklist, !adgm, NoAdgmMention);
    assert Observe(paras, docType)
      == Observations(courts, signed, mayCount, shallCount, applies, missingAll, adgm);
  }

  // ---------------------------------------------------------------------
  // What the detector promises

  /** An issue is emitted exactly when its check fires, and carries what
      that check observed. */
  lemma EmitMembership(o: Observations, paraCount: nat, x: Issue)
    ensures x in Emit(o, paraCount) <==>
      (x == NonAdgmCourts && o.courts)
      || (x == NoSignatureBlock(paraCount - 1) && !o.signatureBlock)
      || (x == NonBindingLanguage(o.mayCount) && o.mayCount > 3 && o.shallCount == 0)
      || (x == ChecklistIncomplete(o.missing) && o.checklistApplies && o.missing != {})
      || (x == NoAdgmMention && !o.adgm)
  {
  }

  predicate InCheckOrder(issues: seq<Issue>) {
    forall a, b | 0 <= a < b < |issues| :: issues[a].CheckOrder() < issues[b].CheckOrder()
  }

  /** The issues are in check order, all from checks before `bound`, and
      so there are at most `bound` of them. */
  predicate OrderedBelow(issues: seq<Issue>, bound: nat) {
    InCheckOrder(issues) && |issues| <= bound &&
    forall i | i in issues :: i.CheckOrder() < bound
  }

  lemma AppendIfKeepsOrder(issues: seq<Issue>, fires: bool, x: Issue)
    requires OrderedBelow(issues, x.CheckOrder())
    ensures OrderedBelow(AppendIf(issues, fires, x), x.CheckOrder() + 1)
  {
    if fires {
      var r := issues + [x];
      forall a, b | 0 <= a < b < |r| ensures r[a].CheckOrder() < r[b].CheckOrder() {
        if b == |issues| {
          assert r[a] in issues;
        }
      }
    }
  }

  /** The issues come out in the order the checks run (courts, signatory,
      binding language, checklist, ADGM mention), each check at most once,
      so there are at most five. */
  lemma EmitInCheckOrder(o: Observations, paraCount: nat)
    ensures InCheckOrder(Emit(o, paraCount))
    ensures |Emit(o, paraCount)| <= 5
  {
    var afterCourts := AppendIf([], o.courts, NonAdgmCourts);
    AppendIfKeepsOrder([], o.courts, NonAdgmCourts);
    var afterSignatory := AppendIf(afterCourts, !o.signatureBlock, NoSignatureBlock(paraCount - 1));
    AppendIfKeepsOrder(afterCourts, !o.signatureBlock, NoSignatureBlock(paraCount - 1));
    var bindingFires := o.mayCount > 3 && o.shallCount == 0;
    var afterBinding := AppendIf(afterSignatory, bindingFires, NonBindingLanguage(o.mayCount));
    AppendIfKeepsOrder(afterSignatory, bindingFires, NonBindingLanguage(o.mayCount));
    var checklistFires := o.checklistApplies && o.missing != {};
    var afterChecklist := AppendIf(afterBinding, checklistFires, ChecklistIncomplete(o.missing));
    AppendIfKeepsOrder(afterBinding, checklistFires, ChecklistIncomplete(o.missing));
    AppendIfKeepsOrder(afterChecklist, !o.adgm, NoAdgmMention);
    assert Emit(o, paraCount) == AppendIf(afterChecklist, !o.adgm, NoAdgmMention);
  }

  /** Every emitted issue is High or Medium, and only the signatory issue is
      anchored to a paragraph, the last one. */
  lemma EmitRecordShape(o: Observations, paraCount: nat)
    ensures |Emit(o, paraCount)| <= 5
    ensures forall i | i in Emit(o, paraCount) :: i.Severity() == High || i.Severity() == Medium
    ensures forall i | i in Emit(o, paraCount) ::
      i.ParaIndex().Some? <==> i == NoSignatureBlock(paraCount - 1)
  {
    EmitInCheckOrder(o, paraCount);
    forall i | i in Emit(o, paraCount)
      ensures i.ParaIndex().Some? <==> i == NoSignatureBlock(paraCount - 1)
    {
      EmitMembership(o, paraCount, i);
    }
  }

  /** Each check contributes an issue of its own kind exactly when it fires,
      carrying what it observed. */
  lemma EmitKinds(o: Observations, paraCount: nat)
    ensures NonAdgmCourts in Emit(o, paraCount) <==> o.courts
    ensures (exists i | i in Emit(o, paraCount) :: i.NoSignatureBlock?) <==> !o.signatureBlock
    ensures forall i | i in Emit(o, paraCount) && i.NoSignatureBlock? ::
      i == NoSignatureBlock(paraCount - 1)
    ensures (exists i | i in Emit(o, paraCount) :: i.NonBindingLanguage?)
      <==> o.mayCount > 3 && o.shallCount == 0
    ensures forall i | i in Emit(o, paraCount) && i.NonBindingLanguage? ::
      i == NonBindingLanguage(o.mayCount)
    ensures (exists i | i in Emit(o, paraCount) :: i.ChecklistIncomplete?)
      <==> o.checklistApplies && o.missing != {}
    ensures forall i | i in Emit(o, paraCount) && i.ChecklistIncomplete? ::
      i == ChecklistIncomplete(o.missing)
    ensures NoAdgmMention in Emit(o, paraCount) <==> !o.adgm
  {
    var issues := Emit(o, paraCount);
    EmitMembership(o, paraCount, NonAdgmCourts);
    EmitMembership(o, paraCount, NoSignatureBlock(paraCount - 1));
    EmitMembership(o, paraCount, NonBindingLanguage(o.mayCount));
    EmitMembership(o, paraCount, ChecklistIncomplete(o.missing));
    EmitMembership(o, paraCount, NoAdgmMention);
    forall i | i in issues
      ensures i.NoSignatureBlock? ==> i == NoSignatureBlock(paraCount - 1)
      ensures i.NonBindingLanguage? ==> i == NonBindingLanguage(o.mayCount)
      ensures i.ChecklistIncomplete? ==> i == ChecklistIncomplete(o.missing)
    {
      EmitMembership(o, paraCount, i);
    }
  }

  /** `find_issues` returns at most five records, each High or Medium;
      only the signatory record is anchored, at the last paragraph (-1 for
      an empty document). */
  lemma DetectRecordShape(paras: seq<string>, docType: string)
    ensures |Detect(paras, docType)| <= 5
    ensures forall i | i in Detect(paras, docType) :: i.Severity() == High || i.Severity() == Medium
    ensures forall i | i in Detect(paras, docType) ::
      i.ParaIndex().Some? <==> i == NoSignatureBlock(|paras| - 1)
  {
    var issues := Detect(paras, docType);
    assert |issues| <= 5 by {
      EmitRecordShape(Observe(paras, docType), |paras|);
    }
    assert forall i | i in issues :: i.Severity() == High || i.Severity() == Medium by {
      EmitRecordShape(Observe(paras, docType), |paras|);
    }
    assert forall i | i in issues :: i.ParaIndex().Some? <==> i == NoSignatureBlock(|paras| - 1) by {
      EmitRecordShape(Observe(paras, docType), |paras|);
    }
  }

  /** The jurisdiction issue is emitted iff a court phrase occurs as a
      word-bounded match. */
  lemma CourtsRule(paras: seq<string>, docType: string)
    ensures NonAdgmCourts in Detect(paras, docType) <==> CourtsReferenced(JoinedText(paras))
  {
    EmitKinds(Observe(paras, docType), |paras|);
  }

  /** The signatory issue is emitted iff no signature phrase occurs as a
      word-bounded match in the last eight paragraphs; it is anchored at the
      last paragraph. */
  lemma SignatoryRule(paras: seq<string>, docType: string)
    ensures (exists i | i in Detect(paras, docType) :: i.NoSignatureBlock?)
      <==> !SignatureBlockFound(TailText(paras))
    ensures forall i | i in Detect(paras, docType) && i.NoSignatureBlock? ::
      i.ParaIndex() == Some(|paras| - 1)
  {
    var issues := Detect(paras, docType);
    assert (exists i | i in issues :: i.NoSignatureBlock?) <==> !SignatureBlockFound(TailText(paras)) by {
      EmitKinds(Observe(paras, docType), |paras|);
    }
    assert forall i | i in issues && i.NoSignatureBlock? :: i.ParaIndex() == Some(|paras| - 1) by {
      EmitKinds(Observe(paras, docType), |paras|);
    }
  }

  /** The two findall counts are the numbers of whole-word occurrences. */
  lemma CountsAreOccurrences(text: string)
    ensures MayCount(text) == OccurrenceCount(text, "may", 0)
    ensures ShallCount(text) == OccurrenceCount(text, "shall", 0)
  {
    assert AllWordChars("may") && AllWordChars("shall");
    FindAllCountsOccurrences(text, "may", 0);
    FindAllCountsOccurrences(text, "shall", 0);
  }

  /** The binding-language issue is emitted iff `may` occurs more than three
      times as a whole word and `shall` never does; the count it reports is
      the number of whole-word occurrences of `may`. */
  lemma BindingRule(paras: seq<string>, docType: string)
    ensures var text := JoinedText(paras);
      (exists i | i in Detect(paras, docType) :: i.NonBindingLanguage?)
      <==> OccurrenceCount(text, "may", 0) > 3 && OccurrenceCount(text, "shall", 0) == 0
    ensures forall i | i in Detect(paras, docType) && i.NonBindingLanguage? ::
      i.mayCount == OccurrenceCount(JoinedText(paras), "may", 0)
  {
    CountsAreOccurrences(JoinedText(paras));
    EmitKinds(Observe(paras, docType), |paras|);
  }

  /** The expected names missing from the text are exactly those that do
      not occur in it. */
  lemma MissingIsAbsent(text: string)
    ensures MissingDocuments(text) == set d | d in ExpectedDocuments && !Contains(text, d)
    ensures MissingDocuments(text) != {} <==> exists d | d in ExpectedDocuments :: !Contains(text, d)
  {
    var missing := MissingDocuments(text);
    if missing != {} {
      var d :| d in missing;
      assert d in ExpectedDocuments && !Contains(text, d);
    }
    if exists d | d in ExpectedDocuments :: !Contains(text, d) {
      var d :| d in ExpectedDocuments && !Contains(text, d);
      assert d in missing;
    }
  }

  /** The checklist issue is emitted iff the checklist applies and some
      expected name does not occur; it carries exactly the expected names
      that do not occur. */
  lemma ChecklistRule(paras: seq<string>, docType: string)
    ensures var text := JoinedText(paras);
      (exists i | i in Detect(paras, docType) :: i.ChecklistIncomplete?)
      <==> ChecklistApplies(docType, text) && exists d | d in ExpectedDocuments :: !Contains(text, d)
    ensures forall i | i in Detect(paras, docType) && i.ChecklistIncomplete? ::
      i.missing == set d | d in ExpectedDocuments && !Contains(JoinedText(paras), d)
  {
    MissingIsAbsent(JoinedText(paras));
    EmitKinds(Observe(paras, docType), |paras|);
  }

  /** The ADGM-mention issue is emitted iff "adgm" never occurs. */
  lemma AdgmRule(paras: seq<string>, docType: string)
    ensures NoAdgmMention in Detect(paras, docType) <==> !Contains(JoinedText(paras), "adgm")
  {
    EmitKinds(Observe(paras, docType), |paras|);
  }

  /** Matching is case-insensitive and sees every paragraph: "adgm" in any
      case in any one paragraph suppresses the ADGM-mention issue. */
  lemma AdgmInAnyParagraph(paras: seq<string>, docType: string, k: nat, w: string)
    requires k < |paras| && Contains(paras[k], w) && Lower(w) == "adgm"
    ensures NoAdgmMention !in Detect(paras, docType)
  {
    ParagraphInJoin(paras, k, w);
    ContainsLower(JoinSpace(paras), w);
    AdgmRule(paras, docType);
  }

  /** The checklist description names every missing checklist document,
      quoted as Python renders it. */
  lemma ChecklistDescriptionListsMissing(missing: set<string>, d: string)
    requires d in missing && d in ExpectedDocuments
    ensures Contains(ChecklistIncomplete(missing).Description(), "'" + d + "'")
  {
    var names := InDeclaredOrder(missing);
    var k :| 0 <= k < |names| && names[k] == d;
    ReprItemsLists(names, k);
    var w := "'" + d + "'";
    ContainsInPart("[", ReprItems(names), w);
    ContainsInPart("[" + ReprItems(names), "]", w);
    ContainsInPart("Missing documents from incorporation checklist: ", ListRepr(names), w);
  }

  /** The binding-language description embeds the count in decimal, from
      which the count can be read back. */
  lemma BindingDescriptionEmbedsCount(n: nat)
    ensures Contains(NonBindingLanguage(n).Description(), DecimalString(n))
    ensures DecimalValue(DecimalString(n)) == n
  {
    var prefix := "Document uses 'may' often (";
    var d := NonBindingLanguage(n).Description();
    assert d[|prefix|..|prefix| + |DecimalString(n)|] == DecimalString(n);
    assert OccursAt(d, DecimalString(n), |prefix|);
    DecimalRoundTrip(n);
  }

  /** "dubai courts" is not a jurisdiction reference: the only alternative
      that occurs in it, "dubai court", is followed by the word character
      `s`, so the closing `\b` fails there. */
  lemma DubaiCourtsPluralNotMatched()
    ensures !CourtsReferenced("dubai courts")
    ensures CourtsReferenced("dubai court")
  {
    var s := "dubai courts";
    forall k, i | 0 <= k < |CourtPhrases| && 0 <= i <= |s|
      ensures !WordMatchAt(s, CourtPhrases[k], i)
    {
      var w := CourtPhrases[k];
      if OccursAt(s, w, i) {
        assert s[i] == w[0];
        assert s[i + |w| - 1] == w[|w| - 1];
        assert k == 3 && i == 0;
        assert WordAt(s, 11);
      }
    }
    assert WordMatchAt("dubai court", CourtPhrases[3], 0);
  }

  /** The "date:" alternative needs a word character right after the colon
      for its closing `\b`: a date label followed by a space is not a
      signature block, one followed directly by the date is. */
  lemma DateLabelNeedsWordAfterColon()
    ensures !SignatureBlockFound("date: 2024-01-01")
    ensures SignatureBlockFound("date:2024-01-01")
  {
    var s := "date: 2024-01-01";
    forall k, i | 0 <= k < |SignaturePhrases| && 0 <= i <= |s|
      ensures !WordMatchAt(s, SignaturePhrases[k], i)
    {
      var w := SignaturePhrases[k];
      if OccursAt(s, w, i) {
        assert s[i] == w[0];
        assert s[i + |w| - 1] == w[|w| - 1];
        assert k == 3 && i == 0;
        assert !WordAt(s, 5);
      }
    }
    assert WordMatchAt("date:2024-01-01", SignaturePhrases[3], 0);
  }
}
