# iNUX tools, modelled in Dafny

This project models the pure and loop-based core of three small teaching
tools and proves properties of that model.

- **TransferAss** converts a list of multiple-choice questions into three outputs. Each question has a stem, an
  `options` dict from option text to a correctness flag, and success/error feedback. The outputs are:
  - IMS QTI 2.1 `assessmentItem` trees, with an IMS Content Packaging manifest;
  - a Moodle XML `quiz` of `multichoice` questions with partial-credit fractions;
  - a student and a teacher Markdown handout.
- **CataLogger** is a registration form for the iNUX resource catalog. Its core:
  - slugifies labels and strips the catalog's numeric prefixes;
  - resolves the chosen catalog page in the hard-coded catalog tree;
  - applies the language suffix to file-name prefixes;
  - splits the keyword field;
  - serialises a submission into the catalog's YAML template.
- **SurveyViewer** wraps survey texts greedily to a measured width for its PDF report. It also removes HTML
  line breaks and tags from answers before display.

## Modules

| module | file | what it holds |
|---|---|---|
| `Wrappers` | wrappers.dfy | `Option` and `Result` |
| `PyStr` | pystr.dfy | Python's `str.isspace`, `strip`, `split()`, `split(sep)`, `join` and `replace`, with their lemmas |
| `Xml` | xml.dfy | element trees with qualified names, attributes, text and CDATA children, and the readers used to state what a tree holds |
| `QuestionModel` | question_model.dfy | the parsed JSON question; flag values are `bool`, `int`, `str` or `null`, and Python truthiness and `is True` are kept apart |
| `TransferText` | transfer_text.dfy | option-prefix stripping, `$…$` math conversion, `clean_option_text`, `clean_general_text`, `wrap_p` |
| `TransferGrading` | transfer_grading.dfy | `fractions_from_options` |
| `QtiEval` | qti_eval.dfy | an interpreter for the QTI 2.1 response-processing subset the converter emits; it gives the grading semantics |
| `TransferQti` | transfer_qti.dfy | `make_item_xml`, `make_manifest_xml` and the item loop of `json_to_qti_zip` |
| `TransferMoodle` | transfer_moodle.dfy | `build_multichoice` and `build_quiz_xml` |
| `TransferMarkdown` | transfer_markdown.dfy | `questions_to_markdown` and `questions_to_markdown_full` |
| `CatalogText` | catalog_text.dfy | `slugify`, `strip_numeric_prefix`, `apply_language_to_prefix` and the keyword split |
| `CatalogPages` | catalog_pages.dfy | the `CATALOG` tree, `get_categories` / `get_subcategories` / `get_subsubcategories` and `resolve_page` |
| `CatalogYaml` | catalog_yaml.dfy | `build_yaml_text` and its two block-building loops |
| `SurveyUtils` | survey_utils.dfy | `wrap_text_to_width` |
| `SurveyApp` | survey_app.dfy | `strip_html_br` |

Where the source builds a value step by step, the model is a `method` with its loop, proved equal to a
specification function. Examples are the `out` dict, the trees grown by `SubElement` / `appendChild`, the
Markdown `md` list and the YAML blocks. That function's properties are proved as lemmas. The wrapping loop
of `wrap_text_to_width` is the exception: it has no reference function, and its `ensures` states the
properties of its result directly (joined with spaces, the lines give back the words; every line fits,
unless it is a single over-long word; no line could have taken the next word).

## Model

| member | source | states |
|---|---|---|
| TransferText.PrefixMatchSound | TransferAss/TransferASS.py:190 | what `^\s*([A-Za-z0-9]+)[\)\.\:]\s+` removes has the label shape (whitespace, at least one letter or digit, one of `).:`, at least one whitespace), and no whitespace is left after it |
| TransferText.PrefixMatchComplete | TransferAss/TransferASS.py:190 | every label-shaped prefix is matched, and the match reaches at least as far |
| TransferText.StripWithoutLabel | TransferAss/TransferASS.py:197-203 | text that does not start with a label passes through prefix stripping unchanged |
| TransferText.StripNotIdempotent | TransferAss/TransferASS.py:190 | one pass removes one label only: `"A) B) x"` becomes `"B) x"`, and a second pass gives `"x"` |
| TransferText.CleanOptionTextSwitches | TransferAss/TransferASS.py:197-206 | with both switches off, option and general text are returned as is; with stripping on and math off, the result is the text or a suffix of it behind exactly one label |
| TransferText.ConvertMathNoDollar | TransferAss/TransferASS.py:191-195 | text without `$` is unchanged by the math conversion |
| TransferText.ConvertMathIsolated | TransferAss/TransferASS.py:191-195 | an isolated `$x$` becomes `$$x$$`, where `x` is non-empty, holds no `$` and no newline, and no `$` follows the closing delimiter; the text after it is converted on its own |
| TransferText.ConvertMathEscalates | TransferAss/TransferASS.py:191-195 | the pattern turns `$$x$$` into `$$$x$$$`, against the comment at line 194 |
| TransferText.WrapPSpec | TransferAss/TransferASS.py:407-411 | `wrap_p` gives `""` exactly for blank text; otherwise it gives stripped markup starting with `<`, either the stripped text itself or that text inside `<p>…</p>` |
| TransferText.WrapPIdempotent | TransferAss/TransferASS.py:407-411 | `wrap_p` applied twice is `wrap_p` applied once |
| TransferGrading.FractionsFromOptions | TransferAss/TransferASS.py:413-442 | the output dict has exactly the options' keys, and each key maps to the fraction the mode assigns to its option |
| TransferGrading.SingleMode | TransferAss/TransferASS.py:426-427 | in single mode, an option gets `"100.000000"` exactly when it is the first one flagged `True` (`is True`); every other option gets `"0"` |
| TransferGrading.FirstKey | TransferAss/TransferASS.py:418-427 | `correct_keys[:1]` holds an option's key exactly when that option is the first flagged `True` |
| TransferGrading.MultiMode | TransferAss/TransferASS.py:430-442 | in multiple mode, an option flagged `True` gets the share 100/C (C > 0) and every other option gets −100/W (W > 0); both go to the six-digit formatter |
| TransferGrading.MultiSums | TransferAss/TransferASS.py:430-442 | in exact arithmetic the correct shares add up to 100 when C > 0, and the wrong shares add up to −100 when W > 0 |
| TransferGrading.SingleSum | TransferAss/TransferASS.py:426-427 | in single mode the fractions add up to 100 when some option is flagged `True`, and to 0 otherwise |
| TransferQti.ResponseProcessingGrades | TransferAss/TransferASS.py:274-325 | the fixed response-processing tree is run from the declared start: the null check, then the match condition, in sequence. A non-empty selection equal, as a multiset, to a non-empty correct response gives SCORE = MAXSCORE (1), `correct` and only the success feedback id; any other selection, the empty one included, gives 0, `incorrect` and only the error feedback id |
| TransferQti.ItemGrades | TransferAss/TransferASS.py:234-325 | an item assembled from these declarations, body, feedbacks and processing grades every selection as `Routing` says |
| TransferQti.ItemCorrect | TransferAss/TransferASS.py:234-240 | the item's `correctResponse` lists the correct ids, in order |
| TransferQti.MakeItemXml | TransferAss/TransferASS.py:211-327 | the item id is `item-` plus the drawn UUID. The identifier and title attributes, correct response, prompt, choices (ids and texts, in order), shuffle flag and the two modal feedbacks, with their `id-` ids, read back from the tree. Every selection is graded as `Routing` says |
| TransferQti.ChoiceIdInjective | TransferAss/TransferASS.py:376 | `ID_(i+1)` names a single position |
| TransferQti.CorrectIdsMembers | TransferAss/TransferASS.py:374-381 | `ID_(j+1)` is in the correct set exactly when option j's flag is truthy |
| TransferQti.CorrectIdsAreChoices | TransferAss/TransferASS.py:374-381 | every correct id is the id of some choice |
| TransferQti.CorrectIdsCount | TransferAss/TransferASS.py:381 | the correct set has one id per truthy flag |
| TransferQti.AllOrNothing | TransferAss/TransferASS.py:286-325 | a selection that includes a wrong choice or misses a right one scores 0 with only the error feedback; the correct set itself scores 1 with only the success feedback |
| TransferQti.MakeManifestXml | TransferAss/TransferASS.py:329-353 | the manifest has identifier `manifestID` and one resource per file name, in order: identifier `res_` plus the stem with `-` replaced by `_`, and `href` and `file href` both equal to the file name |
| TransferQti.ManifestReadsBack | TransferAss/TransferASS.py:345-352 | the resources read back from the manifest tree are exactly the expected (identifier, href, file) triples |
| TransferQti.ResourceIdsDistinct | TransferAss/TransferASS.py:346-347 | distinct UUIDs give distinct resource identifiers, even after `-` becomes `_` |
| TransferQti.PackageNamesDistinct | TransferAss/TransferASS.py:390 | distinct UUIDs give distinct item file names, and none is `imsmanifest.xml` |
| TransferQti.ExportTreeExported | TransferAss/TransferASS.py:372-387 | question i's item carries title `prefix_NN`, the cleaned stem and choices, the truthy ids as correct response, the cleaned feedbacks, and grades as `Routing` says |
| TransferQti.ExportItems | TransferAss/TransferASS.py:372-393 | the item loop fails exactly when some question is not an object, lacks `options`, has non-dict `options` or lacks `question`, with the first such question's error; otherwise it writes one item file per question, in order, question i drawing UUIDs 3i to 3i + 2 |
| TransferQti.JsonToQtiZip | TransferAss/TransferASS.py:355-400 | the archive holds the item files in order, then `imsmanifest.xml`, whose resources are exactly those files |
| TransferMoodle.BuildMultichoice | TransferAss/TransferASS.py:462-555 | refuses exactly a question whose `options` is not a non-empty dict, with that question's error; otherwise it builds the question tree. Missing globals default to strip = true and convert = false |
| TransferMoodle.BuildAnswers | TransferAss/TransferASS.py:527-553 | one answer per option, in dict order, each with the fraction looked up for its key, its cleaned text as HTML and an empty feedback |
| TransferMoodle.QuestionAnswers | TransferAss/TransferASS.py:469-553 | the answers read back from a question are its options, in order, each with its computed fraction and its paragraph-wrapped cleaned text |
| TransferMoodle.QuestionHeader | TransferAss/TransferASS.py:473-524 | type `multichoice`, name `prefix` plus the 3-digit number, question text, empty general feedback, the `single`, `shuffleanswers` and `answernumbering` settings, and the three outcome feedbacks all read back |
| TransferMoodle.SingleFullCredit | TransferAss/TransferASS.py:469-471 | when exactly one option is `True` and auto-single is on, that answer gets `"100.000000"` and every other answer gets `"0"` |
| TransferMoodle.FeedbackFallback | TransferAss/TransferASS.py:513-521 | the default feedback is used only for an empty text; a text of spaces alone is kept and wraps to nothing |
| TransferMoodle.BuildQuizXml | TransferAss/TransferASS.py:557-568 | a `quiz` root with one question per entry, numbered from 1; it fails with the first refused entry's error, and exactly when some entry is refused |
| TransferMarkdown.QuestionsToMarkdown | TransferAss/TransferASS.py:20-63 | the student handout is the `\n`-join of the student blocks of the listed entries |
| TransferMarkdown.QuestionsToMarkdownFull | TransferAss/TransferASS.py:66-120 | the teacher handout is the `\n`-join of the teacher blocks of the listed entries |
| TransferMarkdown.StudentBlockShape | TransferAss/TransferASS.py:44-61 | a student block is the title, a blank line, option j lettered from `A` on line 2 + j, and a closing blank line |
| TransferMarkdown.TeacherBlockShape | TransferAss/TransferASS.py:89-118 | a teacher block is the title, a blank line, option j marked on line 2 + 2j followed by a blank line, then the feedback paragraphs and a closing blank line |
| TransferMarkdown.TeacherMarksTruthy | TransferAss/TransferASS.py:100-101 | a teacher's option line is the student's line with the mark added, and it ends in `**TRUE**` and two spaces exactly when the flag is truthy |
| TransferMarkdown.ListedNumbered | TransferAss/TransferASS.py:29-45 | every listed entry is titled with its position in the whole list, counted from 1, so skipped entries leave gaps |
| TransferMarkdown.MarkdownEmptyIff | TransferAss/TransferASS.py:29-42 | a handout is empty exactly when no entry is listed: every entry is either not an object, has a blank question, or has no non-empty options dict |
| TransferMarkdown.TitleNumberRoundTrip | TransferAss/TransferASS.py:45 | the number in a title reads back as the entry's number |
| TransferMarkdown.MarkdownSplitsIntoLines | TransferAss/TransferASS.py:63 | when no text holds a line break, splitting a handout at `\n` gives back its lines |
| CatalogText.SlugifyShape | CataLogger/CataLogger.py:81-84 | every slug is non-empty, holds only `[a-z0-9-]`, has no dash at either end and no `--` |
| CatalogText.SlugifyKeepsAlnums | CataLogger/CataLogger.py:81-84 | a slug keeps exactly the input's lower-cased ASCII letters and digits, in order; an input with none gives `unknown` |
| CatalogText.SlugFixed | CataLogger/CataLogger.py:81-84 | a string already shaped like a slug is its own slug |
| CatalogText.SlugifyIdempotent | CataLogger/CataLogger.py:81-84 | `slugify(slugify(s)) == slugify(s)` |
| CatalogText.StripNumericPrefix | CataLogger/CataLogger.py:86-94 | when the label changes, what goes is its first space-free token plus one space, and that token is a digit string once its dots are removed |
| CatalogText.StripNumericPrefixDrops | CataLogger/CataLogger.py:91-93 | conversely, such a token and its space are always dropped |
| CatalogText.StripNumericPrefixKept | CataLogger/CataLogger.py:91-94 | a space-free first token that is not a number keeps the whole label |
| CatalogText.StripNumericPrefixCatalog | CataLogger/CataLogger.py:89 | `05 Applied Hydrogeology` becomes `Applied Hydrogeology` |
| CatalogText.StripNumericPrefixDotted | CataLogger/CataLogger.py:88 | a dotted number such as `03.2` is dropped too |
| CatalogText.StripNumericPrefixKeeps | CataLogger/CataLogger.py:92-94 | a word that is not a number, or a token of dots alone, stays |
| CatalogText.LanguageCodesAre | CataLogger/CataLogger.py:10-19 | the known language codes are `en de fr it sv hi pl nl` |
| CatalogText.ApplyLanguageEndsWithCode | CataLogger/CataLogger.py:197-224 | for a known code, the result's last `_`-part is that code |
| CatalogText.ApplyLanguageKeeps | CataLogger/CataLogger.py:213-215 | a prefix whose last part is already the code is returned unchanged |
| CatalogText.ApplyLanguageIdempotent | CataLogger/CataLogger.py:197-224 | applying the same known code twice changes nothing more |
| CatalogText.ApplyLanguageAppends | CataLogger/CataLogger.py:209-224 | the result is `prefix_code` when the last part is not a known code, and also when it is another known code and the core in front of it is non-empty |
| CatalogText.ApplyLanguageBareCode | CataLogger/CataLogger.py:220-222 | `en` with `fr` gives `en_fr` |
| CatalogText.ApplyLanguageEmptyCore | CataLogger/CataLogger.py:211-222 | `_en` with `fr` gives `en_fr`; the leading underscore is lost |
| CatalogText.ApplyLanguagePlain | CataLogger/CataLogger.py:223-224 | `hydro` with `de` gives `hydro_de` |
| CatalogText.KeywordsClean | CataLogger/CataLogger.py:459 | every keyword split from the field is non-blank, stripped and free of commas |
| CatalogText.KeywordsRoundTrip | CataLogger/CataLogger.py:459 | clean keywords written as `a, b, c` split back into the same keywords |
| CatalogPages.Find | CataLogger/CataLogger.py:110 | a dict lookup finds a page exactly for a present key, and returns that key's page |
| CatalogPages.Lookup | CataLogger/CataLogger.py:110-123 | `d[key]` fails with `KeyError(key)` exactly when the key is missing |
| CatalogPages.Sort | CataLogger/CataLogger.py:97 | `sorted` returns an ordered permutation of its input |
| CatalogPages.SortKeepsSorted | CataLogger/CataLogger.py:97 | sorting labels that are already strictly increasing changes nothing |
| CatalogPages.GetCategories | CataLogger/CataLogger.py:96-97 | the category labels, sorted, each exactly once |
| CatalogPages.GetSubcategories | CataLogger/CataLogger.py:99-100 | fails with `KeyError` exactly for an unknown category; otherwise gives its subcategory labels, sorted |
| CatalogPages.GetSubsubcategories | CataLogger/CataLogger.py:102-103 | fails exactly when the path is missing, with the first missing label; otherwise gives the sub-subcategory labels, sorted |
| CatalogPages.ResolvePage | CataLogger/CataLogger.py:105-124 | the page id and title label of the chosen node: the category's for `(Category homepage)`; the subcategory's for an empty choice or `(Attach to subcategory)`; the sub-subcategory's otherwise. It fails with the first missing label |
| CatalogPages.ResolveHomepage | CataLogger/CataLogger.py:113-114 | the homepage choice ignores the sub-subcategory choice |
| CatalogPages.ResolveEmptyAttaches | CataLogger/CataLogger.py:119-120 | an empty sub-subcategory choice means the same as `(Attach to subcategory)` |
| CatalogPages.CatalogIds | CataLogger/CataLogger.py:24-72 | category k's page id is `NN0000_en`, and its subcategories' ids follow the same numbering |
| CatalogPages.CategoriesInFileOrder | CataLogger/CataLogger.py:24-97 | the six categories, sorted, come out in file order |
| CatalogPages.SubsubAlwaysFails | CataLogger/CataLogger.py:122-124 | the shipped catalog has no sub-subcategories, so choosing one always fails |
| CatalogPages.NoSubsubcategories | CataLogger/CataLogger.py:102-103 | every subcategory of the shipped catalog offers no sub-subcategories |
| CatalogYaml.SplitLines | CataLogger/CataLogger.py:160 | `splitlines` yields lines holding no line break |
| CatalogYaml.BuildFitForBlock | CataLogger/CataLogger.py:151-157 | the `fit_for` loop builds `fit_for: []` for no audiences, else `fit_for:` and one `  - item` line per audience |
| CatalogYaml.BuildDescBlock | CataLogger/CataLogger.py:159-163 | the description loop builds the key line and one indented line per line of the stripped description |
| CatalogYaml.IndentLines | CataLogger/CataLogger.py:162-163 | the loop appends each line, right-stripped and indented by two spaces, in order, to the text already built |
| CatalogYaml.KeywordsInlineRoundTrip | CataLogger/CataLogger.py:142-146 | keywords render as `[a, b, c]`, and `[]` is the same bracketed join for none; the keywords split back from between the brackets |
| CatalogYaml.Institute | CataLogger/CataLogger.py:165-166 | a blank institute becomes `TO_BE_FILLED_BY_COURSE_MANAGER`; otherwise it is the stripped text; the value is never empty and never starts or ends with whitespace |
| CatalogYaml.BuildYamlText | CataLogger/CataLogger.py:126-195 | the method with both loops gives the template text with all fields in place |
| CatalogYaml.DescBlockJoin | CataLogger/CataLogger.py:159-181 | the written description block is its key line, then each line of the stripped description indented by two spaces with its trailing whitespace removed |
| CatalogYaml.DescBlockLines | CataLogger/CataLogger.py:159-181 | read back with `split("\n")`, the block gives exactly those lines |
| CatalogYaml.BlankDescBlock | CataLogger/CataLogger.py:160-181 | a blank description leaves only the key line |
| CatalogYaml.FitForBlockJoin | CataLogger/CataLogger.py:151-187 | the written `fit_for` block is `fit_for: []`, or `fit_for:` followed by one `  - item` line per audience, in order |
| CatalogYaml.FitForBlockLines | CataLogger/CataLogger.py:151-187 | read back with `split("\n")`, single-line audiences give exactly those lines |
| CatalogYaml.YamlJoin | CataLogger/CataLogger.py:168-194 | the record is the `\n`-join of the header lines, the description section, the middle lines, the `fit_for` section and the tail lines |
| SurveyUtils.WrapTextToWidth | SurveyViewer/utils.py:14-36 | text without words gives `[""]`. Otherwise the lines, joined by single spaces, are the text's words joined by single spaces, and each line is non-empty words separated by single spaces. The result is never empty; every line of several words is within `max_width`, and so is every prefix of it that ends after a word and holds several words, i.e. every test made while the line grew passed; a line ends only where adding the next word would exceed it. The rule for each single step is the contract of `WrapWord` |
| SurveyUtils.WrapWords | SurveyViewer/utils.py:23-36 | the loop over a non-empty word list: the lines joined by single spaces are the words joined by single spaces; every line is non-empty words; every line of several words fits, and every width test made while it grew passed; every break is forced by the next word |
| SurveyUtils.WrapWord | SurveyViewer/utils.py:26-33 | one turn: the word extends the current line exactly when the extended line's width is within `max_width`, else the current line is appended and the word starts the next; the loop invariant is kept |
| SurveyApp.StripTags | SurveyViewer/app.py:20 | tag removal never lengthens the text |
| SurveyApp.StripTagsTagFree | SurveyViewer/app.py:20 | what tag removal leaves holds no `<…>` on one line |
| SurveyApp.TagFreeFixed | SurveyViewer/app.py:20 | text without such a tag is left as it is |
| SurveyApp.StripTagsIdempotent | SurveyViewer/app.py:20 | removing tags twice is removing them once |
| SurveyApp.NoAngleFixed | SurveyViewer/app.py:20 | text without `<` is left as it is |
| SurveyApp.TagReplaced | SurveyViewer/app.py:20 | a leftmost-shortest `<m>` on one line is replaced by one space, and the scan goes on after its `>` |
| SurveyApp.ReplaceJoin | SurveyViewer/app.py:14-18 | `replace` turns every occurrence of the pattern between the parts into the replacement |
| SurveyApp.StripHtmlBr | SurveyViewer/app.py:12-21 | the result has no leading or trailing whitespace and no two whitespace characters in a row |
| SurveyApp.PlainText | SurveyViewer/app.py:21 | for text without `<` the result is `" ".join(text.split())` |
| SurveyApp.BreaksBecomeSpaces | SurveyViewer/app.py:14-21 | pieces without `<` separated by `<br>`, `<br/>` or `<br />` come out as the pieces' words joined by single spaces |

## Left out

- User interfaces: the Streamlit page code of all three tools is not modelled. This covers uploaders, checkboxes, previews, download buttons and session state, and CataLogger's file-name assembly from `hierarchy_base`. It is UI plumbing around the modelled functions.
- `markdown_to_docx` is not modelled; it runs pandoc in a subprocess over temporary files.
- Serialisation and archives: `ET.tostring`, `toprettyxml`, `ZipFile`, `json.loads` and `yaml.safe_load` are not modelled. XML is an element tree, a zip is a list of (name, tree) entries, and JSON input arrives already parsed as `Question` values.
- Identifiers: `uuid4` is replaced by UUID strings passed in as parameters. Only the lemmas about distinct file names and resource ids assume the strings are distinct and of UUID characters.
- Float formatting: `:.6f` of the shares goes through a formatter parameter applied to the exact rational share. `defaultgrade` and `penalty` are reals in `Settings`, and their `:g` formatting is the `general` formatter parameter of `Formats`.
- Text: `str.lower` and `str.isdigit` are modelled for ASCII only. Whitespace is Python's `str.isspace` set.
- Non-string values: `str(...)` of non-string JSON values (numbers, `None` questions) and `None` selections are not modelled. Text fields are strings or absent.
- CataLogger side effects: timestamps (`datetime.now`) and the zipping of uploaded figures are not modelled; they are clock and file I/O.
- The CataLogger `CATALOG` global is a constant of the model. The helpers take the catalog tree as a parameter, and the lemmas about the shipped catalog use the constant.
- `SurveyUtils.WrapTextToWidth`: ReportLab's `stringWidth` is a parameter `width: string -> nat`, and `max_width` is an integer, so float font metrics are not modelled.
- `SurveyApp.StripHtmlBr`: the input is taken to be a string already. The `str(text)` the function starts with is not modelled, so other values of the pandas column it is applied to (a missing value, which `str` turns into `"nan"`, say) are not covered.
- `SurveyUtils.WrapTextToWidth`: the input is taken to be a string already, and the opening `str(text)` is not modelled; its callers in the PDF export pass f-strings, so `str` changes nothing there.
- SurveyViewer's plotting and PDF generation (pandas, matplotlib, ReportLab) are not modelled.
- YAML2PDF is not part of this model.
- `CatalogYaml.YamlJoin` states the whole record as a `\n`-join of its lines. It does not state the converse, that `split("\n")` gives back exactly those lines, for the whole record; it states that only for the two blocks (`DescBlockLines`, `FitForBlockLines`).
- `SurveyApp.StripHtmlBr`: idempotence is not stated for the whole function, only for tag removal (`StripTagsIdempotent`). A second pass can change text in which a tag spans a line break.
- `TransferMarkdown.Letter`: the option letter `chr(ord("A") + j)` is U+FFFD where the code point is a surrogate, which a Dafny character cannot hold, and the `ValueError` that `chr` raises past U+10FFFF (more than 1,114,046 options) is not modelled; the model writes U+FFFD there too.
- The QTI export does not refuse a question with an empty `options` dict, as the code does not; only the Moodle export refuses it.
- `TransferText.ConvertMathIsolated`: conversion is stated only for isolated `$x$`, because the pattern also rewrites `$$x$$` to `$$$x$$$` (`ConvertMathEscalates`).
