# ADGM document review rules, modelled in Dafny

This project models the rule engine of a corporate-document reviewer for the
Abu Dhabi Global Market (ADGM). The engine lives in `doc_processor.py`. It
takes a `.docx` file and treats it as a list of paragraph texts. On that list
it does four things:

- **classifier** (`classify_document`): it names the document type. It joins
  the paragraphs with single spaces, lower-cases the result, and walks an
  ordered keyword table. The first type with a keyword that occurs in the text
  wins. When no keyword occurs, the result is `"Unknown"`.
- **issue detector** (`find_issues`): it runs five checks in a fixed order and
  appends one issue record for each check that fires. The checks are:
  - non-ADGM courts, a `\b`-bounded regular-expression alternation;
  - a signature block in the last eight paragraphs, another bounded
    alternation;
  - `may`/`shall` whole-word counts;
  - the incorporation checklist, a set difference;
  - absence of any mention of `adgm`.
- **annotator** (`add_comments_and_save`): it attaches each issue to the
  document, as a comment on the paragraph the issue points at. When that is
  impossible it appends a `[Review note]` paragraph carrying the comment. When
  even that comment is refused, it appends a `NOTE:` paragraph holding the
  text.
- **process label** (`process_file`, line 130): the report's `process` field.

The Dafny modules follow that structure:

- `Text` (`text.dfy`): ASCII lower-casing, the `" ".join` and `"".join` of
  paragraph texts, Python's substring test, and `str()` of a natural number.
- `WordMatch` (`wordmatch.dfy`): the two regular-expression shapes the
  detector uses. `\b` is written out as a transition between word characters
  (ASCII letters, digits and `_`) and non-word characters. A `findall` count is
  proved equal to a per-position count of bounded matches.
- `Classifier` (`classifier.dfy`): the keyword table and the first-match
  search.
- `Issues` (`issues.dfy`): the issue records and the five check conditions.
  - `Detect` is the list `find_issues` returns, as a function.
  - `FindIssues` is the appending procedure, including the loop that collects
    the present checklist names. It is proved to return `Detect`.
  - There is one lemma per rule.
- `Annotator` (`annotator.dfy`):
  - the document is a class whose paragraph list and comment list are updated
    in place;
  - the placement ladder is given by the functions `AnnotateOne` and
    `AnnotateAll`;
  - the methods are proved against these functions.
- `Pipeline` (`pipeline.dfy`): the process label and `process_file` without
  the file system.

Whether the word-processing library accepts a comment is an oracle. It is a
function parameter of the paragraph index, the paragraph text and the comment
text. A refusal stands for the exception the annotator catches.

The jurisdiction pattern at `doc_processor.py:32` lists "dubai court" but not
its plural. In "dubai courts" the `s` after "court" is a word character, so
the closing `\b` fails, and no other alternative occurs in that text: a
document that mentions only "Dubai Courts" gets no jurisdiction issue.
`Issues.DubaiCourtsPluralNotMatched` proves this. "federal courts" is an
alternative of its own, so it is matched.

## Model

| member | source | states |
|---|---|---|
| `Text.Lower` | doc_processor.py:21 | `.lower()` keeps the length of the text. |
| `Text.LowerOnlyChangesCapitals` | doc_processor.py:21 | Lower-casing turns each ASCII capital into its own small letter, leaves no capital and changes no other character. |
| `Text.ContainsLower` | doc_processor.py:21-24 | Matching after `.lower()` is case-insensitive: an occurrence of a word in any case is an occurrence of the lower-cased word in the lower-cased text. |
| `Text.Contains` | doc_processor.py:24 | Python's `w in s`: `w` occurs at some position of `s` (also lines 65, 70, 83, 130). |
| `Text.JoinedText` | doc_processor.py:30 | The lower-cased, space-joined paragraph text read by the classifier (line 21) and by the checks. |
| `Text.JoinSpace` | doc_processor.py:21 | `" ".join` holds the texts' total length plus one separator between each two neighbours. It starts with the first text, followed by a space when there is a second. |
| `Text.Concat` | doc_processor.py:130 | `"".join` holds exactly the texts' total length and starts with the first text. |
| `Text.ParagraphInJoin` | doc_processor.py:21 | Text found in any one paragraph is found in the space-joined text. |
| `Text.ParagraphInConcat` | doc_processor.py:130 | Text found in any one paragraph is found in the paragraphs run together. |
| `Classifier.RowMatches` | doc_processor.py:23-24 | Some keyword of the row is a substring of the text, as the inner loop tests. |
| `Classifier.ClassifyFrom` | doc_processor.py:22-26 | Searching the table from row `t` gives "Unknown" exactly when no row from `t` on has a keyword in the text. Otherwise it gives the name of the first such row. |
| `Classifier.ClassifyDocument` | doc_processor.py:20-26 | The result is "Unknown" iff no keyword of any type is a substring of the lower-cased, space-joined text. Otherwise it is the name of the first table row with a matching keyword. |
| `Classifier.ClassifyIsFirstMatch` | doc_processor.py:22-25 | Conversely, whenever row `t` is the first matching row, its type name is the result. |
| `Classifier.DistinctTypeNames` | doc_processor.py:7-13 | The five type names are pairwise distinct and none is "Unknown", so a result identifies its row. |
| `Classifier.ClassifyResultIsKnownType` | doc_processor.py:7-13 | The result is one of the five table keys or "Unknown". |
| `Classifier.EarlierTypeWins` | doc_processor.py:22-25 | When two rows both match, the later row's name is never the result. |
| `Classifier.ArticlesBeforeMemorandum` | doc_processor.py:8-9 | Text containing both "articles" and "memorandum" is classified as "Articles of Association". |
| `Classifier.KeywordInParagraphIsClassified` | doc_processor.py:20-25 | A keyword written in any case in any one paragraph makes the result something other than "Unknown", and no later row's name. |
| `Classifier.EmptyDocumentIsUnknown` | doc_processor.py:20-26 | An empty document is "Unknown". |
| `WordMatch.IsWordChar` | doc_processor.py:32 | `\w`: an ASCII letter, a digit or `_` (the class behind every `\b` at lines 32, 43 and 53-54). |
| `WordMatch.Boundary` | doc_processor.py:32 | `\b` at a position: a word character on exactly one side of it, with none outside the text. |
| `WordMatch.WordMatchAt` | doc_processor.py:53-54 | `\bw\b` at a position: the word occurs there, bounded on both sides. |
| `WordMatch.SearchBounded` | doc_processor.py:32 | When `re.search` finds a `\b`-bounded alternative, that alternative occurs literally in the text. |
| `WordMatch.FindAll` | doc_processor.py:53-54 | For a word made of word characters, the `findall` count is the number of positions where the bounded word matches. |
| `WordMatch.FindAllFrom` | doc_processor.py:53-54 | The `findall` scan from a position: after a match it resumes at the match's end, otherwise one position further. |
| `WordMatch.NoOverlap` | doc_processor.py:53-54 | Two bounded matches of a word made of word characters cannot overlap, because no `\b` falls inside a match. |
| `WordMatch.FindAllCountsOccurrences` | doc_processor.py:53-54 | The `findall` scan, which resumes after each match, counts exactly the positions where the bounded word matches. |
| `WordMatch.OccurrenceCountPositive` | doc_processor.py:53-55 | The count is positive iff some bounded match exists. |
| `Text.DecimalString` | doc_processor.py:58 | `str(n)` is a non-empty string of decimal digits with no leading zero unless `n` is 0. |
| `Text.DecimalRoundTrip` | doc_processor.py:58 | Reading the decimal rendering back gives the number. |
| `Text.SpaceJoinedOccurrenceInConcat` | doc_processor.py:130 | A word without a space that occurs in the lower-cased space-joined text also occurs in the lower-cased text joined without separators. |
| `Issues.Issue.Severity` | doc_processor.py:36 | Every record's severity is "High" or "Medium" (lines 36, 47, 59, 77, 87). |
| `Issues.Issue.ParaIndex` | doc_processor.py:50 | Only the signatory record has a `para_index`, holding the index it was built with. The other four records carry `None`. |
| `Issues.Issue.Section` | doc_processor.py:33-40 | The `section` field of each of the five records (lines 34, 45, 57, 75, 85). |
| `Issues.Issue.Description` | doc_processor.py:33-40 | The `issue` field of each record: fixed text, the `may` count in decimal (line 58), or the missing names as a list (line 76). |
| `Issues.Issue.Suggestion` | doc_processor.py:33-40 | The `suggestion` field of each of the five records (lines 37, 48, 60, 78, 88). |
| `Issues.Issue.Citation` | doc_processor.py:33-40 | The `citation` field of each of the five records (lines 38, 49, 61, 79, 89). |
| `Issues.Observe` | doc_processor.py:30-83 | What the five checks test: the court search on the joined text, the signature search on the tail, the two counts, the checklist trigger and missing set, and the `adgm` substring test. |
| `Issues.Emit` | doc_processor.py:29-93 | Starting from an empty list, the five checks append their records in source order, each only when its condition holds. |
| `Issues.Detect` | doc_processor.py:28-93 | `find_issues` is the checks' observations of the paragraphs, fed to `Emit` with the paragraph count. |
| `Issues.CourtsReferenced` | doc_processor.py:32 | The court pattern's bounded search over the joined text. |
| `Issues.SignatureBlockFound` | doc_processor.py:43 | The signature pattern's bounded search over the tail text. |
| `Issues.MayCount` | doc_processor.py:53 | The `findall` count of the bounded word `may`. |
| `Issues.ShallCount` | doc_processor.py:54 | The `findall` count of the bounded word `shall`. |
| `Issues.AdgmMentioned` | doc_processor.py:83 | "adgm" is a substring of the joined text. |
| `Issues.AppendIf` | doc_processor.py:32-33 | `if fires: issues.append(record)`, the shape of all five checks. |
| `Issues.TailText` | doc_processor.py:42 | The lower-cased, space-joined text of the last eight paragraphs. |
| `Issues.ChecklistApplies` | doc_processor.py:65 | The checklist runs when the type is the incorporation form or "incorporation" occurs in the joined text. |
| `Issues.PresentDocuments` | doc_processor.py:68-71 | The checklist names that occur in the joined text. |
| `Issues.MissingDocuments` | doc_processor.py:72 | `expected - present`. |
| `Issues.ListRepr` | doc_processor.py:76 | Python's rendering of a list of strings is bracketed, and the empty list renders as `[]`. |
| `Issues.ReprItems` | doc_processor.py:76 | The items of the rendering: each name in single quotes, separated by `, `. |
| `Issues.ReprItemsLists` | doc_processor.py:76 | Every name of the list appears, quoted, in the rendering. |
| `Issues.ChecklistDescriptionListsMissing` | doc_processor.py:72-76 | The checklist description names every missing checklist document, quoted. |
| `Issues.LastEight` | doc_processor.py:42 | `paras[-8:]` has min(8, n) elements and is the suffix of that length. |
| `Issues.InDeclaredOrder` | doc_processor.py:72-76 | The listed missing names are exactly the members of the missing set, with no others, and each is listed once. |
| `Issues.CollectPresent` | doc_processor.py:68-71 | The loop over the expected set collects exactly the expected names that are substrings of the text, whatever order it visits them in. |
| `Issues.FindIssues` | doc_processor.py:28-93 | Appending in check order returns exactly `Detect(paras, docType)`: the five checks' issues, each present iff its condition holds. |
| `Issues.EmitMembership` | doc_processor.py:28-93 | An issue is in the list iff its check fires, and it carries what the check observed: the last index, the `may` count, the missing set. |
| `Issues.EmitInCheckOrder` | doc_processor.py:28-93 | The issues appear in the order courts, signatory, binding language, checklist, ADGM mention, with each check at most once, so there are at most five. |
| `Issues.EmitRecordShape` | doc_processor.py:28-93 | Every severity is "High" or "Medium". Only the signatory issue has a `para_index`, the last paragraph's index. |
| `Issues.EmitKinds` | doc_processor.py:28-93 | Each kind of issue is present exactly when its check fires, with the observed anchor, count or missing set. |
| `Issues.DetectRecordShape` | doc_processor.py:28-93 | `find_issues` returns at most five records, all High or Medium. Only the signatory record is anchored, at `len(paras)-1`, which is -1 for an empty document. |
| `Issues.CourtsRule` | doc_processor.py:32-40 | The jurisdiction issue is emitted iff a court phrase occurs as a `\b`-bounded match in the joined text. |
| `Issues.SignatoryRule` | doc_processor.py:42-51 | The signatory issue is emitted iff no signature phrase occurs as a bounded match in the last min(8, n) paragraphs. It is anchored at the last paragraph. |
| `Issues.CountsAreOccurrences` | doc_processor.py:53-54 | The `may` and `shall` counts are the numbers of whole-word occurrences. |
| `Issues.BindingRule` | doc_processor.py:53-63 | The binding-language issue is emitted iff `may` occurs more than three times as a whole word and `shall` never does. It reports the `may` count. |
| `Issues.AdgmInAnyParagraph` | doc_processor.py:83-91 | "adgm" written in any case in any one paragraph suppresses the ADGM-mention issue. |
| `Issues.BindingDescriptionEmbedsCount` | doc_processor.py:58 | The binding-language description contains the count in decimal, from which the count can be read back. |
| `Issues.MissingIsAbsent` | doc_processor.py:65-72 | `expected - present` is exactly the set of expected names that are not substrings of the text. It is non-empty iff one of them is absent. |
| `Issues.ChecklistRule` | doc_processor.py:65-81 | The checklist issue is emitted iff the type is the incorporation form or "incorporation" occurs, and some expected name is absent. It carries exactly the absent names. |
| `Issues.AdgmRule` | doc_processor.py:83-91 | The ADGM-mention issue is emitted iff "adgm" is not a substring of the joined text. |
| `Issues.DubaiCourtsPluralNotMatched` | doc_processor.py:32 | "dubai courts" is not matched by the jurisdiction pattern; "dubai court" is. |
| `Issues.DateLabelNeedsWordAfterColon` | doc_processor.py:43 | "date: 2024-01-01" is not a signature block, because no `\b` follows the colon; "date:2024-01-01" is. |
| `Annotator.CommentText` | doc_processor.py:99 | The comment text is the issue description, " Suggestion: ", the suggestion, " (Ref: ", the citation and ")", in that order and nothing else. |
| `Annotator.FieldsOf` | doc_processor.py:98-99 | The `issue`, `suggestion`, `citation` and `para_index` fields the annotator reads from a record. |
| `Annotator.WithParagraph` | doc_processor.py:105 | The effect of `add_paragraph` (lines 105, 109, 111, 115): one paragraph appended, comments unchanged. |
| `Annotator.WithComment` | doc_processor.py:103 | The effect of an accepted `add_comment` (lines 103, 107, 113): one comment signed CorporateAgent/CA appended, paragraphs unchanged. |
| `Annotator.Targets` | doc_processor.py:100 | The anchor is present and within the document's current paragraph count. |
| `Annotator.ReviewNoteFallback` | doc_processor.py:105-109 | The fallback always appends `[Review note]`. The comment goes on that paragraph iff the library accepts it there. Otherwise a `NOTE:` paragraph with the text follows, and no comment is added. |
| `Annotator.AnnotateOne` | doc_processor.py:98-115 | An issue goes on its target paragraph iff its anchor is in range and the comment is accepted there. Otherwise it goes on a new `[Review note]` paragraph iff the library accepts it there. Failing both, a `NOTE:` paragraph is added as well. |
| `Annotator.AnnotateAll` | doc_processor.py:97-115 | The loop annotates the issues one after another, each against the document the earlier ones left. |
| `Annotator.AnnotateOneAppends` | doc_processor.py:100-115 | One issue adds at most two paragraphs and one comment. Existing paragraphs and comments are unchanged, and comments stay on existing paragraphs. |
| `Annotator.AnnotateOneRecordsText` | doc_processor.py:99-115 | The issue's text always lands in the document, either in a new comment or in a new `NOTE:` paragraph. |
| `Annotator.UntargetedIssueAppendsNote` | doc_processor.py:110-115 | An issue with no anchor, or one out of range such as -1, never comments on an existing paragraph and always appends `[Review note]`. |
| `Annotator.AnnotateAllAppends` | doc_processor.py:97-115 | Over the whole loop, the original paragraphs keep their order and text. At most two paragraphs and one comment are added per issue, and every comment stays on a paragraph of the document. |
| `Annotator.HoldsText` | doc_processor.py:99-115 | A document holds an issue's text beyond a given start: in an added comment or an added `NOTE:` paragraph. |
| `Annotator.HoldsTextExtends` | doc_processor.py:97-115 | Appending to the document never loses text it holds. |
| `Annotator.AnnotateAllRecordsEveryIssue` | doc_processor.py:97-115 | No issue is lost: after the whole loop, every issue's text is in an added comment or an added `NOTE:` paragraph. |
| `Annotator.AnnotatedDocumentWellFormed` | doc_processor.py:96-115 | The annotated document starts with the original paragraphs and the comments the file already had. Every added comment is on one of its paragraphs and signed "CorporateAgent"/"CA". |
| `Annotator.Document.Open` | doc_processor.py:96 | Opening gives the file's paragraphs and the comments it already carries. |
| `Annotator.Document.AddParagraph` | doc_processor.py:105 | Appends one paragraph and returns its index. Nothing else changes. |
| `Annotator.Document.AddComment` | doc_processor.py:103 | Adds one signed comment when the library accepts it. Otherwise nothing changes, and the failure is reported. |
| `Annotator.Document.AnnotateIssue` | doc_processor.py:98-115 | One loop iteration changes the document exactly as `AnnotateOne` says. |
| `Annotator.AddCommentsAndSave` | doc_processor.py:95-115 | Annotating every issue in order gives `AnnotateAll` of the opened document, existing comments included. |
| `Pipeline.ProcessLabel` | doc_processor.py:130 | The process label is "Company Incorporation" or "Unknown". |
| `Pipeline.IncorporationFormNamesIncorporation` | doc_processor.py:130 | The lower-cased incorporation form name contains "incorporation". |
| `Pipeline.NoIncorporationIn` | doc_processor.py:130 | A string with no letter p has no "incorporation" once lower-cased. |
| `Pipeline.OtherNamesLackIncorporation` | doc_processor.py:130 | None of the other four type names, nor "Unknown", contains "incorporation" once lower-cased. |
| `Pipeline.OnlyIncorporationFormNamesIncorporation` | doc_processor.py:130 | Of the table's type names, only the incorporation form contains "incorporation" once lower-cased. |
| `Pipeline.ProcessLabelOfClassified` | doc_processor.py:130 | For the classified type, the label is "Company Incorporation" iff the type is the incorporation form or the run-together, lower-cased paragraphs contain "incorporation". |
| `Pipeline.ChecklistImpliesIncorporationProcess` | doc_processor.py:130 | Whenever the incorporation checklist applies, the process label is "Company Incorporation". |
| `Pipeline.ProcessLabelSeesWordsAcrossParagraphs` | doc_processor.py:130 | The converse fails: with the paragraphs "incorp" and "oration", the label is "Company Incorporation" but the checklist does not apply. |
| `Pipeline.Records` | doc_processor.py:98-99 | The records the annotator reads, one per issue, in order, each with the issue's `para_index`. |
| `Pipeline.ProcessFile` | doc_processor.py:119-135 | The report holds the classified type, the detected issues and the process label. The reviewed document is the annotation of the paragraphs with those issues. |

## Left out

- Reading and writing `.docx` files, `os.makedirs`, and the output file name
  built from the base name and `datetime.now()` are left out. The document is
  a list of paragraph texts, and the report has no `reviewed_file` field.
- `process_file` reads the file twice, once to find issues and once to
  annotate. The model assumes both reads give the same paragraphs.
- The comments a file already carries are taken as given. Their anchors and
  authors are not constrained, and the model promises nothing about them
  beyond keeping them, in order, ahead of the added ones.
- `add_comment` is an oracle over the paragraph index, the paragraph text and
  the comment text. A refused call leaves the document unchanged: the library
  fails before it changes anything. The library's rules for accepting a comment, and run-level
  formatting, are not modelled.
- Issues.InDeclaredOrder: the missing checklist names are listed in the
  checklist's declared order. Python lists them in the unspecified iteration
  order of a set. The model proves the same names are listed, not the same
  order.
- `.lower()` is modelled on ASCII letters only, and `\w` as ASCII letters,
  digits and `_`. Python's Unicode case mapping and Unicode word characters
  are not modelled.
- The general regular-expression engine is not modelled. Only the two shapes
  the detector uses are modelled: a search for a bounded alternation and a
  `findall` count of a bounded word.
- The `load_docx` wrapper and the Gradio front end in `app.py` are left out.
  So are the JSON report file and `processed_count`, the length of the report
  list.
