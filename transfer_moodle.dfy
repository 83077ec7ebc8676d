/**
 * The Moodle XML export of the question converter: one `multichoice`
 * question per entry, with its name, HTML question text, scalar settings,
 * the three outcome feedbacks and one `answer` per option carrying the
 * option's fraction, all inside a `quiz` root.
 *
 * minidom trees are `Xml.Node` values: a text node is a `Text` child, a
 * CDATA section a `CData` child. Rendering the percentages (`:.6f`) and the
 * grade settings (`:g`) is done by formatters passed in.
 */
module TransferMoodle {
  import opened Wrappers
  import opened PyStr
  import opened Xml
  import opened QuestionModel
  import opened TransferText
  import opened TransferGrading

  /** The export settings chosen on the page. */
  datatype Settings = Settings(namePrefix: string, defaultGrade: real, penalty: real, shuffleAnswers: bool,
                               answerNumbering: string, autoSingle: bool)

  /** Python's `f"{x:.6f}"` and `f"{x:g}"`. */
  datatype Formats = Formats(fixed6: real -> string, general: real -> string)

  const DEFAULT_CORRECT := "Your answer is correct."
  const DEFAULT_WRONG := "Your answer is partially or wholly incorrect."
  const FORMAT_HTML := (Plain("format"), "html")

  function El(tag: string, attrs: seq<(QName, string)>, kids: seq<Node>): Node {
    Element(Plain(tag), attrs, kids)
  }

  /** `set_cdata_text`: a `text` element holding one CDATA section. */
  function HtmlText(html: string): Node {
    El("text", [], [CData(html)])
  }

  /** `add_scalar`: an element holding one text node. */
  function Scalar(tag: string, text: string): Node {
    El(tag, [], [Text(text)])
  }

  /** An element with `format="html"` whose text is `html`. */
  function HtmlField(tag: string, html: string): Node {
    El(tag, [FORMAT_HTML], [HtmlText(html)])
  }

  /** `a or b` on strings. */
  function Or(a: string, b: string): string {
    if a == "" then b else a
  }

  /** `try: moodle_… except NameError: fallback` */
  function Setting(global: Option<bool>, fallback: bool): bool {
    if global.Some? then global.value else fallback
  }

  /** The string stored in the fractions dict. */
  function FractionText(f: Fraction, fmt: Formats): string {
    match f
    case Literal(t) => t
    case Fixed6(r) => fmt.fixed6(r)
  }

  /** `build_multichoice` accepts an object whose options are a non-empty dict. */
  predicate Accepted(q: Question) {
    q.Object? && q.options.Dict? && q.options.entries != []
  }

  /** Why `build_multichoice` refuses question number `idx`, if it does. */
  function OptionsError(idx: nat, q: Question): (r: Option<Error>)
    ensures r.None? <==> Accepted(q)
    ensures r.Some? && q.Object? ==> r.value.ValueError?
  {
    if q.NotAnObject? then Some(AttributeError)
    else if !q.options.Dict? || q.options.entries == [] then
      Some(ValueError("Question " + Decimal(idx) + ": 'options' must be a non-empty dict."))
    else None
  }

  // ---------------------------------------------------------------
  // The question element
  // ---------------------------------------------------------------

  /** `<answer fraction=… format="html">` with the option's HTML and an empty per-answer feedback. */
  function AnswerNode(fraction: string, html: string): Node {
    El("answer", [(Plain("fraction"), fraction), FORMAT_HTML], [HtmlText(html), HtmlField("feedback", "")])
  }

  /** The fraction strings of the options, in dict order. */
  function FractionTexts(options: seq<(string, Value)>, single: bool, fmt: Formats): (r: seq<string>)
    ensures |r| == |options|
  {
    seq(|options|, k requires 0 <= k < |options| => FractionText(FractionFor(options, single, k), fmt))
  }

  /** The HTML shown for each option: its cleaned text as a paragraph. */
  function OptionHtmls(options: seq<(string, Value)>, strip: bool, convert: bool): (r: seq<string>)
    ensures |r| == |options|
  {
    seq(|options|, k requires 0 <= k < |options| => WrapP(CleanOptionText(options[k].0, strip, convert)))
  }

  /** The first `n` answer elements, from the fraction strings and the option HTML. */
  function AnswersUpTo(fractions: seq<string>, htmls: seq<string>, n: nat): (r: seq<Node>)
    requires n <= |fractions| && n <= |htmls|
    ensures |r| == n
    ensures forall k :: 0 <= k < n ==> r[k] == AnswerNode(fractions[k], htmls[k])
  {
    if n == 0 then [] else AnswersUpTo(fractions, htmls, n - 1) + [AnswerNode(fractions[n - 1], htmls[n - 1])]
  }

  /** The answers, one per option in dict order. */
  function Answers(options: seq<(string, Value)>, fractions: seq<string>, strip: bool, convert: bool): (r: seq<Node>)
    requires |fractions| == |options|
    ensures |r| == |options|
  {
    AnswersUpTo(fractions, OptionHtmls(options, strip, convert), |options|)
  }

  /** Everything the question element holds before its answers, from the texts it shows. */
  function Header(name: string, questionText: string, defaultGrade: string, penalty: string, single: bool,
                  shuffle: bool, numbering: string, correctFeedback: string, wrongFeedback: string): seq<Node>
  {
    [ El("name", [], [El("text", [], [Text(name)])]),
      HtmlField("questiontext", questionText),
      HtmlField("generalfeedback", ""),
      Scalar("defaultgrade", defaultGrade),
      Scalar("penalty", penalty),
      Scalar("hidden", "0"),
      Scalar("idnumber", ""),
      Scalar("single", if single then "true" else "false"),
      Scalar("shuffleanswers", if shuffle then "true" else "false"),
      Scalar("answernumbering", numbering),
      Scalar("showstandardinstruction", "0"),
      HtmlField("correctfeedback", correctFeedback),
      HtmlField("partiallycorrectfeedback", wrongFeedback),
      HtmlField("incorrectfeedback", wrongFeedback),
      El("shownumcorrect", [], []) ]
  }

  /** The header of question number `idx`. */
  function HeaderOf(idx: nat, q: Question, s: Settings, fmt: Formats, single: bool, convert: bool): seq<Node>
    requires q.Object?
  {
    Header(s.namePrefix + ZeroPad(idx, 3), WrapP(CleanGeneralText(Get(q.question, ""), convert)),
           fmt.general(s.defaultGrade), fmt.general(s.penalty), single, s.shuffleAnswers, s.answerNumbering,
           WrapP(Or(Get(q.success, ""), DEFAULT_CORRECT)), WrapP(Or(Get(q.error, ""), DEFAULT_WRONG)))
  }

  /** The `question` element `build_multichoice` returns for an accepted question. */
  function QuestionTree(idx: nat, q: Question, s: Settings, fmt: Formats, strip: bool, convert: bool): Node
    requires Accepted(q)
  {
    var options := q.options.entries;
    var single := SingleChosen(options, s.autoSingle);
    El("question", [(Plain("type"), "multichoice")], HeaderOf(idx, q, s, fmt, single, convert) + Answers(options, FractionTexts(options, single, fmt), strip, convert))
  }

  /**
   * `build_multichoice`: refuse a question whose options are not a
   * non-empty dict, count the options flagged `True`, compute the
   * fractions, then append the header elements and one answer per option.
   */
  method BuildMultichoice(idx: nat, q: Question, s: Settings, fmt: Formats, stripGlobal: Option<bool>, convertGlobal: Option<bool>)
    returns (r: Result<Node, Error>)
    requires WellFormed(q)
    ensures r.Failure? <==> !Accepted(q)
    ensures r.Failure? ==> OptionsError(idx, q) == Some(r.error)
    ensures r.Success? ==> r.value == QuestionTree(idx, q, s, fmt, Setting(stripGlobal, true), Setting(convertGlobal, false))
  {
    if !Accepted(q) {
      return Failure(OptionsError(idx, q).value);
    }
    var options := q.options.entries;
    var numTrue := 0;
    for k := 0 to |options|
      invariant numTrue == CountTrue(options[..k])
    {
      assert options[..k + 1][..k] == options[..k];
      if IsTrue(options[k].1) {
        numTrue := numTrue + 1;
      }
    }
    assert options[..|options|] == options;
    var single := if s.autoSingle then numTrue == 1 else false;
    var fractions := FractionsFromOptions(options, single);
    var convert := Setting(convertGlobal, false);
    ghost var texts := FractionTexts(options, single, fmt);
    var answers := BuildAnswers(options, fractions, fmt, stripGlobal, convert, texts);
    r := Success(El("question", [(Plain("type"), "multichoice")], HeaderOf(idx, q, s, fmt, single, convert) + answers));
  }

  /** The answer loop of `build_multichoice`: one answer per option, its fraction read from the dict. */
  method BuildAnswers(options: seq<(string, Value)>, fractions: map<string, Fraction>, fmt: Formats,
                      stripGlobal: Option<bool>, convert: bool, ghost texts: seq<string>)
    returns (answers: seq<Node>)
    requires |texts| == |options|
    requires forall i :: 0 <= i < |options| ==> options[i].0 in fractions && FractionText(fractions[options[i].0], fmt) == texts[i]
    ensures answers == Answers(options, texts, Setting(stripGlobal, true), convert)
  {
    ghost var htmls := OptionHtmls(options, Setting(stripGlobal, true), convert);
    answers := [];
    for k := 0 to |options|
      invariant answers == AnswersUpTo(texts, htmls, k)
    {
      var strip := Setting(stripGlobal, true);
      var display := CleanOptionText(options[k].0, strip, convert);
      var fraction := FractionText(fractions[options[k].0], fmt);
      var html := WrapP(display);
      assert fraction == texts[k] && html == htmls[k];
      answers := answers + [AnswerNode(fraction, html)];
    }
  }

  // ---------------------------------------------------------------
  // Reading a question element back
  // ---------------------------------------------------------------

  /** The HTML held by a field: the CDATA of its `text` child. */
  function HtmlOf(field: Node): Option<string> {
    if !field.Element? then None
    else
      var t :- FirstNamed(field.children, Plain("text"));
      if |t.children| > 0 && t.children[0].CData? then Some(t.children[0].data) else None
  }

  /** The HTML of the question's first child called `tag`. */
  function HtmlFieldOf(question: Node, tag: string): Option<string> {
    if !question.Element? then None
    else
      var f :- FirstNamed(question.children, Plain(tag));
      HtmlOf(f)
  }

  /** The text of the question's first child called `tag`. */
  function ScalarOf(question: Node, tag: string): Option<string> {
    if !question.Element? then None
    else
      var f :- FirstNamed(question.children, Plain(tag));
      Some(TextOf(f))
  }

  /** The question's name. */
  function NameOf(question: Node): Option<string> {
    if !question.Element? then None
    else
      var n :- FirstNamed(question.children, Plain("name"));
      var t :- FirstNamed(n.children, Plain("text"));
      Some(TextOf(t))
  }

  /** The fraction and HTML of an answer element. */
  function AnswerOf(a: Node): (Option<string>, Option<string>) {
    (Attribute(a, Plain("fraction")), HtmlOf(a))
  }

  /** The answers of a question element, in document order. */
  function AnswersOf(question: Node): (r: seq<(Option<string>, Option<string>)>) {
    var kids := if question.Element? then ChildrenNamed(question.children, Plain("answer")) else [];
    seq(|kids|, k requires 0 <= k < |kids| => AnswerOf(kids[k]))
  }

  lemma HeaderHasNoAnswer(name: string, questionText: string, defaultGrade: string, penalty: string, single: bool,
                           shuffle: bool, numbering: string, correctFeedback: string, wrongFeedback: string)
    ensures ChildrenNamed(Header(name, questionText, defaultGrade, penalty, single, shuffle, numbering, correctFeedback, wrongFeedback),
                          Plain("answer")) == []
  {
    var h := Header(name, questionText, defaultGrade, penalty, single, shuffle, numbering, correctFeedback, wrongFeedback);
    assert forall y :: y in h ==> !IsNamed(y, Plain("answer"));
    ChildrenNamedNone(h, Plain("answer"));
  }

  lemma AnswersNamed(options: seq<(string, Value)>, fractions: seq<string>, strip: bool, convert: bool)
    requires |fractions| == |options|
    ensures forall i :: 0 <= i < |options| ==> IsNamed(Answers(options, fractions, strip, convert)[i], Plain("answer"))
  {
  }

  /** The answers of a question element are the elements after its header. */
  lemma AnswersAfterHeader(h: seq<Node>, a: seq<Node>)
    requires ChildrenNamed(h, Plain("answer")) == []
    requires forall i :: 0 <= i < |a| ==> IsNamed(a[i], Plain("answer"))
    ensures ChildrenNamed(h + a, Plain("answer")) == a
  {
    ChildrenNamedAppend(h, a, Plain("answer"));
    ChildrenNamedAll(a, Plain("answer"));
  }

  lemma AnswerReadBack(fraction: string, html: string)
    ensures AnswerOf(AnswerNode(fraction, html)) == (Some(fraction), Some(html))
  {
    var kids := AnswerNode(fraction, html).children;
    assert IsNamed(kids[0], Plain("text"));
  }

  /** The answers read back from a question element are the options, in order, each with its fraction and HTML. */
  lemma QuestionAnswers(idx: nat, q: Question, s: Settings, fmt: Formats, strip: bool, convert: bool)
    requires Accepted(q)
    ensures var options := q.options.entries;
            var answers := AnswersOf(QuestionTree(idx, q, s, fmt, strip, convert));
            |answers| == |options| &&
            forall k :: 0 <= k < |options| ==>
              answers[k] == (Some(FractionText(FractionFor(options, SingleChosen(options, s.autoSingle), k), fmt)),
                             Some(WrapP(CleanOptionText(options[k].0, strip, convert))))
  {
    var options := q.options.entries;
    var single := SingleChosen(options, s.autoSingle);
    var texts := FractionTexts(options, single, fmt);
    var a := Answers(options, texts, strip, convert);
    AnswersNamed(options, texts, strip, convert);
    HeaderHasNoAnswer(s.namePrefix + ZeroPad(idx, 3), WrapP(CleanGeneralText(Get(q.question, ""), convert)),
                      fmt.general(s.defaultGrade), fmt.general(s.penalty), single, s.shuffleAnswers, s.answerNumbering,
                      WrapP(Or(Get(q.success, ""), DEFAULT_CORRECT)), WrapP(Or(Get(q.error, ""), DEFAULT_WRONG)));
    AnswersAfterHeader(HeaderOf(idx, q, s, fmt, single, convert), a);
    forall k | 0 <= k < |options|
      ensures AnswerOf(a[k]) == (Some(texts[k]), Some(WrapP(CleanOptionText(options[k].0, strip, convert))))
    {
      AnswerReadBack(texts[k], WrapP(CleanOptionText(options[k].0, strip, convert)));
    }
  }

  // Each field of the header is the only one with its tag, so a lookup by tag finds it.

  lemma HeaderName(name: string, questionText: string, defaultGrade: string, penalty: string, single: bool,
                     shuffle: bool, numbering: string, correctFeedback: string, wrongFeedback: string)
    ensures FirstNamed(Header(name, questionText, defaultGrade, penalty, single, shuffle, numbering, correctFeedback, wrongFeedback), Plain("name")) == Some(El("name", [], [El("text", [], [Text(name)])]))
  {
    var h := Header(name, questionText, defaultGrade, penalty, single, shuffle, numbering, correctFeedback, wrongFeedback);
    assert forall y :: y in h && IsNamed(y, Plain("name")) ==> y == h[0];
    FirstNamedUnique(h, h[0], Plain("name"));
  }

  lemma HeaderQuestionText(name: string, questionText: string, defaultGrade: string, penalty: string, single: bool,
                     shuffle: bool, numbering: string, correctFeedback: string, wrongFeedback: string)
    ensures FirstNamed(Header(name, questionText, defaultGrade, penalty, single, shuffle, numbering, correctFeedback, wrongFeedback), Plain("questiontext")) == Some(HtmlField("questiontext", questionText))
  {
    var h := Header(name, questionText, defaultGrade, penalty, single, shuffle, numbering, correctFeedback, wrongFeedback);
    FirstNamedSecond(h, Plain("questiontext"));
  }

  lemma HeaderGeneralFeedback(name: string, questionText: string, defaultGrade: string, penalty: string, single: bool,
                     shuffle: bool, numbering: string, correctFeedback: string, wrongFeedback: string)
    ensures FirstNamed(Header(name, questionText, defaultGrade, penalty, single, shuffle, numbering, correctFeedback, wrongFeedback), Plain("generalfeedback")) == Some(HtmlField("generalfeedback", ""))
  {
    var h := Header(name, questionText, defaultGrade, penalty, single, shuffle, numbering, correctFeedback, wrongFeedback);
    FirstNamedThird(h, Plain("generalfeedback"));
  }

  lemma HeaderSingle(name: string, questionText: string, defaultGrade: string, penalty: string, single: bool,
                     shuffle: bool, numbering: string, correctFeedback: string, wrongFeedback: string)
    ensures FirstNamed(Header(name, questionText, defaultGrade, penalty, single, shuffle, numbering, correctFeedback, wrongFeedback), Plain("single")) == Some(Scalar("single", if single then "true" else "false"))
  {
    var h := Header(name, questionText, defaultGrade, penalty, single, shuffle, numbering, correctFeedback, wrongFeedback);
    assert forall y :: y in h && IsNamed(y, Plain("single")) ==> y == h[7];
    FirstNamedUnique(h, h[7], Plain("single"));
  }

  lemma HeaderShuffle(name: string, questionText: string, defaultGrade: string, penalty: string, single: bool,
                     shuffle: bool, numbering: string, correctFeedback: string, wrongFeedback: string)
    ensures FirstNamed(Header(name, questionText, defaultGrade, penalty, single, shuffle, numbering, correctFeedback, wrongFeedback), Plain("shuffleanswers")) == Some(Scalar("shuffleanswers", if shuffle then "true" else "false"))
  {
    var h := Header(name, questionText, defaultGrade, penalty, single, shuffle, numbering, correctFeedback, wrongFeedback);
    assert forall y :: y in h && IsNamed(y, Plain("shuffleanswers")) ==> y == h[8];
    FirstNamedUnique(h, h[8], Plain("shuffleanswers"));
  }

  lemma HeaderNumbering(name: string, questionText: string, defaultGrade: string, penalty: string, single: bool,
                     shuffle: bool, numbering: string, correctFeedback: string, wrongFeedback: string)
    ensures FirstNamed(Header(name, questionText, defaultGrade, penalty, single, shuffle, numbering, correctFeedback, wrongFeedback), Plain("answernumbering")) == Some(Scalar("answernumbering", numbering))
  {
    var h := Header(name, questionText, defaultGrade, penalty, single, shuffle, numbering, correctFeedback, wrongFeedback);
    assert forall y :: y in h && IsNamed(y, Plain("answernumbering")) ==> y == h[9];
    FirstNamedUnique(h, h[9], Plain("answernumbering"));
  }

  lemma HeaderCorrectFeedback(name: string, questionText: string, defaultGrade: string, penalty: string, single: bool,
                     shuffle: bool, numbering: string, correctFeedback: string, wrongFeedback: string)
    ensures FirstNamed(Header(name, questionText, defaultGrade, penalty, single, shuffle, numbering, correctFeedback, wrongFeedback), Plain("correctfeedback")) == Some(HtmlField("correctfeedback", correctFeedback))
  {
    var h := Header(name, questionText, defaultGrade, penalty, single, shuffle, numbering, correctFeedback, wrongFeedback);
    assert forall y :: y in h && IsNamed(y, Plain("correctfeedback")) ==> y == h[11];
    FirstNamedUnique(h, h[11], Plain("correctfeedback"));
  }

  lemma HeaderPartialFeedback(name: string, questionText: string, defaultGrade: string, penalty: string, single: bool,
                     shuffle: bool, numbering: string, correctFeedback: string, wrongFeedback: string)
    ensures FirstNamed(Header(name, questionText, defaultGrade, penalty, single, shuffle, numbering, correctFeedback, wrongFeedback), Plain("partiallycorrectfeedback")) == Some(HtmlField("partiallycorrectfeedback", wrongFeedback))
  {
    var h := Header(name, questionText, defaultGrade, penalty, single, shuffle, numbering, correctFeedback, wrongFeedback);
    assert forall y :: y in h && IsNamed(y, Plain("partiallycorrectfeedback")) ==> y == h[12];
    FirstNamedUnique(h, h[12], Plain("partiallycorrectfeedback"));
  }

  lemma HeaderIncorrectFeedback(name: string, questionText: string, defaultGrade: string, penalty: string, single: bool,
                     shuffle: bool, numbering: string, correctFeedback: string, wrongFeedback: string)
    ensures FirstNamed(Header(name, questionText, defaultGrade, penalty, single, shuffle, numbering, correctFeedback, wrongFeedback), Plain("incorrectfeedback")) == Some(HtmlField("incorrectfeedback", wrongFeedback))
  {
    var h := Header(name, questionText, defaultGrade, penalty, single, shuffle, numbering, correctFeedback, wrongFeedback);
    assert forall y :: y in h && IsNamed(y, Plain("incorrectfeedback")) ==> y == h[13];
    FirstNamedUnique(h, h[13], Plain("incorrectfeedback"));
  }

  /** The name and question text read back from a question element whose header `h` holds them. */
  lemma TextsReadBack(h: seq<Node>, a: seq<Node>, name: string, questionText: string)
    requires FirstNamed(h, Plain("name")) == Some(El("name", [], [El("text", [], [Text(name)])]))
    requires FirstNamed(h, Plain("questiontext")) == Some(HtmlField("questiontext", questionText))
    requires FirstNamed(h, Plain("generalfeedback")) == Some(HtmlField("generalfeedback", ""))
    ensures var tree := El("question", [(Plain("type"), "multichoice")], h + a);
            NameOf(tree) == Some(name) &&
            HtmlFieldOf(tree, "questiontext") == Some(questionText) &&
            HtmlFieldOf(tree, "generalfeedback") == Some("")
  {
    FirstNamedPrefix(h, a, Plain("name"));
    FirstNamedPrefix(h, a, Plain("questiontext"));
    FirstNamedPrefix(h, a, Plain("generalfeedback"));
    assert IsNamed(El("text", [], [Text(name)]), Plain("text"));
    assert IsNamed(HtmlText(questionText), Plain("text"));
    assert IsNamed(HtmlText(""), Plain("text"));
  }

  /** The three feedbacks read back from a question element whose header `h` holds them. */
  lemma FeedbacksReadBack(h: seq<Node>, a: seq<Node>, correctFeedback: string, wrongFeedback: string)
    requires FirstNamed(h, Plain("correctfeedback")) == Some(HtmlField("correctfeedback", correctFeedback))
    requires FirstNamed(h, Plain("partiallycorrectfeedback")) == Some(HtmlField("partiallycorrectfeedback", wrongFeedback))
    requires FirstNamed(h, Plain("incorrectfeedback")) == Some(HtmlField("incorrectfeedback", wrongFeedback))
    ensures var tree := El("question", [(Plain("type"), "multichoice")], h + a);
            HtmlFieldOf(tree, "correctfeedback") == Some(correctFeedback) &&
            HtmlFieldOf(tree, "partiallycorrectfeedback") == Some(wrongFeedback) &&
            HtmlFieldOf(tree, "incorrectfeedback") == Some(wrongFeedback)
  {
    FirstNamedPrefix(h, a, Plain("correctfeedback"));
    FirstNamedPrefix(h, a, Plain("partiallycorrectfeedback"));
    FirstNamedPrefix(h, a, Plain("incorrectfeedback"));
    assert IsNamed(HtmlText(correctFeedback), Plain("text"));
    assert IsNamed(HtmlText(wrongFeedback), Plain("text"));
  }

  /** The settings read back from a question element whose header `h` holds them. */
  lemma SettingsReadBack(h: seq<Node>, a: seq<Node>, single: bool, shuffle: bool, numbering: string)
    requires FirstNamed(h, Plain("single")) == Some(Scalar("single", if single then "true" else "false"))
    requires FirstNamed(h, Plain("shuffleanswers")) == Some(Scalar("shuffleanswers", if shuffle then "true" else "false"))
    requires FirstNamed(h, Plain("answernumbering")) == Some(Scalar("answernumbering", numbering))
    ensures var tree := El("question", [(Plain("type"), "multichoice")], h + a);
            Attribute(tree, Plain("type")) == Some("multichoice") &&
            ScalarOf(tree, "single") == Some(if single then "true" else "false") &&
            ScalarOf(tree, "shuffleanswers") == Some(if shuffle then "true" else "false") &&
            ScalarOf(tree, "answernumbering") == Some(numbering)
  {
    FirstNamedPrefix(h, a, Plain("single"));
    FirstNamedPrefix(h, a, Plain("shuffleanswers"));
    FirstNamedPrefix(h, a, Plain("answernumbering"));
  }

  /** The header read back from a question element: its type, name, texts, single flag and feedbacks. */
  lemma QuestionHeader(idx: nat, q: Question, s: Settings, fmt: Formats, strip: bool, convert: bool)
    requires Accepted(q)
    ensures var tree := QuestionTree(idx, q, s, fmt, strip, convert);
            Attribute(tree, Plain("type")) == Some("multichoice") &&
            NameOf(tree) == Some(s.namePrefix + ZeroPad(idx, 3)) &&
            HtmlFieldOf(tree, "questiontext") == Some(WrapP(CleanGeneralText(Get(q.question, ""), convert))) &&
            HtmlFieldOf(tree, "generalfeedback") == Some("") &&
            ScalarOf(tree, "single") == Some(if SingleChosen(q.options.entries, s.autoSingle) then "true" else "false") &&
            ScalarOf(tree, "shuffleanswers") == Some(if s.shuffleAnswers then "true" else "false") &&
            ScalarOf(tree, "answernumbering") == Some(s.answerNumbering) &&
            HtmlFieldOf(tree, "correctfeedback") == Some(WrapP(Or(Get(q.success, ""), DEFAULT_CORRECT))) &&
            HtmlFieldOf(tree, "partiallycorrectfeedback") == Some(WrapP(Or(Get(q.error, ""), DEFAULT_WRONG))) &&
            HtmlFieldOf(tree, "incorrectfeedback") == Some(WrapP(Or(Get(q.error, ""), DEFAULT_WRONG)))
  {
    var options := q.options.entries;
    var single := SingleChosen(options, s.autoSingle);
    var a := Answers(options, FractionTexts(options, single, fmt), strip, convert);
    var name := s.namePrefix + ZeroPad(idx, 3);
    var qt := WrapP(CleanGeneralText(Get(q.question, ""), convert));
    var cf := WrapP(Or(Get(q.success, ""), DEFAULT_CORRECT));
    var wf := WrapP(Or(Get(q.error, ""), DEFAULT_WRONG));
    var dg, pen := fmt.general(s.defaultGrade), fmt.general(s.penalty);
    HeaderName(name, qt, dg, pen, single, s.shuffleAnswers, s.answerNumbering, cf, wf);
    HeaderQuestionText(name, qt, dg, pen, single, s.shuffleAnswers, s.answerNumbering, cf, wf);
    HeaderGeneralFeedback(name, qt, dg, pen, single, s.shuffleAnswers, s.answerNumbering, cf, wf);
    HeaderCorrectFeedback(name, qt, dg, pen, single, s.shuffleAnswers, s.answerNumbering, cf, wf);
    HeaderPartialFeedback(name, qt, dg, pen, single, s.shuffleAnswers, s.answerNumbering, cf, wf);
    HeaderIncorrectFeedback(name, qt, dg, pen, single, s.shuffleAnswers, s.answerNumbering, cf, wf);
    HeaderSingle(name, qt, dg, pen, single, s.shuffleAnswers, s.answerNumbering, cf, wf);
    HeaderShuffle(name, qt, dg, pen, single, s.shuffleAnswers, s.answerNumbering, cf, wf);
    HeaderNumbering(name, qt, dg, pen, single, s.shuffleAnswers, s.answerNumbering, cf, wf);
    var h := HeaderOf(idx, q, s, fmt, single, convert);
    TextsReadBack(h, a, name, qt);
    FeedbacksReadBack(h, a, cf, wf);
    SettingsReadBack(h, a, single, s.shuffleAnswers, s.answerNumbering);
  }

  lemma {:induction false} FirstNamedPrefix(a: seq<Node>, b: seq<Node>, name: QName)
    requires FirstNamed(a, name).Some?
    ensures FirstNamed(a + b, name) == FirstNamed(a, name)
  {
    assert a != [];
    assert (a + b)[0] == a[0];
    if !IsNamed(a[0], name) {
      assert (a + b)[1..] == a[1..] + b;
      FirstNamedPrefix(a[1..], b, name);
    }
  }

  /**
   * With the single flag set, exactly one answer gets full credit: the
   * option flagged `True`; every other answer gets `"0"`.
   */
  lemma SingleFullCredit(idx: nat, q: Question, s: Settings, fmt: Formats, strip: bool, convert: bool, k: nat)
    requires Accepted(q) && k < |q.options.entries|
    requires SingleChosen(q.options.entries, s.autoSingle)
    ensures var answers := AnswersOf(QuestionTree(idx, q, s, fmt, strip, convert));
            k < |answers| && answers[k].0 == Some(if IsTrue(q.options.entries[k].1) then "100.000000" else "0")
  {
    var options := q.options.entries;
    QuestionAnswers(idx, q, s, fmt, strip, convert);
    SingleMode(options, k);
    if IsTrue(options[k].1) {
      OnlyTrue(options, k);
    }
  }

  /** When exactly one option is `True`, no option before it is. */
  lemma {:induction false} OnlyTrue(options: seq<(string, Value)>, k: nat)
    requires k < |options| && IsTrue(options[k].1) && CountTrue(options) == 1
    ensures forall j :: 0 <= j < k ==> !IsTrue(options[j].1)
  {
    forall j | 0 <= j < k
      ensures !IsTrue(options[j].1)
    {
      if IsTrue(options[j].1) {
        CountTrueTwo(options, j, k);
      }
    }
  }

  /** Two positions flagged `True` make a count of at least two. */
  lemma {:induction false} CountTrueTwo(options: seq<(string, Value)>, j: nat, k: nat)
    requires j < k < |options| && IsTrue(options[j].1) && IsTrue(options[k].1)
    ensures CountTrue(options) >= 2
    decreases |options|
  {
    var n := |options| - 1;
    if k == n {
      CountTruePositive(options[..n], j);
      assert options[..n][j] == options[j];
    } else {
      CountTrueTwo(options[..n], j, k);
      assert options[..n][j] == options[j] && options[..n][k] == options[k];
    }
  }

  /**
   * The feedback falls back to the default only when the JSON text is
   * empty: a text of spaces alone is kept, and `wrap_p` turns it into an
   * empty feedback.
   */
  lemma FeedbackFallback(text: string, default: string)
    requires !AllSpace(default)
    ensures WrapP(Or(text, default)) == "" <==> text != "" && AllSpace(text)
    ensures text == "" ==> WrapP(Or(text, default)) == WrapP(default)
  {
    WrapPSpec(Or(text, default));
  }

  // ---------------------------------------------------------------
  // The quiz
  // ---------------------------------------------------------------

  /** The error of the first refused question, numbering from `idx`. */
  function FirstQuizError(data: seq<Question>, idx: nat): Option<Error>
    decreases |data|
  {
    if data == [] then None
    else if !Accepted(data[0]) then OptionsError(idx, data[0])
    else FirstQuizError(data[1..], idx + 1)
  }

  lemma {:induction false} FirstQuizErrorAt(data: seq<Question>, idx: nat, i: nat)
    requires i < |data| && !Accepted(data[i])
    requires forall j :: 0 <= j < i ==> Accepted(data[j])
    ensures FirstQuizError(data, idx) == OptionsError(idx + i, data[i])
    decreases i
  {
    if i > 0 {
      assert Accepted(data[0]);
      FirstQuizErrorAt(data[1..], idx + 1, i - 1);
    }
  }

  lemma {:induction false} FirstQuizErrorNone(data: seq<Question>, idx: nat)
    requires forall j :: 0 <= j < |data| ==> Accepted(data[j])
    ensures FirstQuizError(data, idx).None?
    decreases |data|
  {
    if data != [] {
      assert Accepted(data[0]);
      FirstQuizErrorNone(data[1..], idx + 1);
    }
  }

  /** The first `n` questions of an accepted quiz, numbered from 1. */
  function QuizQuestions(data: seq<Question>, n: nat, s: Settings, fmt: Formats, strip: bool, convert: bool): (r: seq<Node>)
    requires n <= |data|
    requires forall i :: 0 <= i < n ==> Accepted(data[i])
    ensures |r| == n
  {
    if n == 0 then []
    else QuizQuestions(data, n - 1, s, fmt, strip, convert) + [QuestionTree(n, data[n - 1], s, fmt, strip, convert)]
  }

  /**
   * `build_quiz_xml`: a `quiz` root with one question per entry, numbered
   * from 1; the first refused question stops the export with its error.
   */
  method BuildQuizXml(data: seq<Question>, s: Settings, fmt: Formats, stripGlobal: Option<bool>, convertGlobal: Option<bool>)
    returns (r: Result<Node, Error>)
    requires forall i :: 0 <= i < |data| ==> WellFormed(data[i])
    ensures r.Failure? <==> FirstQuizError(data, 1).Some?
    ensures r.Failure? ==> FirstQuizError(data, 1) == Some(r.error)
    ensures r.Success? ==> forall i :: 0 <= i < |data| ==> Accepted(data[i])
    ensures r.Success? ==>
              r.value == El("quiz", [], QuizQuestions(data, |data|, s, fmt, Setting(stripGlobal, true), Setting(convertGlobal, false)))
  {
    var questions := BuildQuestions(data, s, fmt, stripGlobal, convertGlobal);
    if questions.Failure? {
      return Failure(questions.error);
    }
    r := Success(El("quiz", [], questions.value));
  }

  /** The loop of `build_quiz_xml`: `build_multichoice` on each entry, numbered from 1. */
  method BuildQuestions(data: seq<Question>, s: Settings, fmt: Formats, stripGlobal: Option<bool>, convertGlobal: Option<bool>)
    returns (r: Result<seq<Node>, Error>)
    requires forall i :: 0 <= i < |data| ==> WellFormed(data[i])
    ensures r.Failure? <==> FirstQuizError(data, 1).Some?
    ensures r.Failure? ==> FirstQuizError(data, 1) == Some(r.error)
    ensures r.Success? ==> forall i :: 0 <= i < |data| ==> Accepted(data[i])
    ensures r.Success? ==> r.value == QuizQuestions(data, |data|, s, fmt, Setting(stripGlobal, true), Setting(convertGlobal, false))
  {
    var questions: seq<Node> := [];
    for i := 0 to |data|
      invariant forall j :: 0 <= j < i ==> Accepted(data[j])
      invariant questions == QuizQuestions(data, i, s, fmt, Setting(stripGlobal, true), Setting(convertGlobal, false))
    {
      var next := AppendQuestion(data, i, questions, s, fmt, stripGlobal, convertGlobal);
      if next.Failure? {
        return Failure(next.error);
      }
      questions := next.value;
    }
    FirstQuizErrorNone(data, 1);
    r := Success(questions);
  }

  /** One turn of that loop: entry `i` appended as question `i + 1`, or the export's error. */
  method AppendQuestion(data: seq<Question>, i: nat, questions: seq<Node>, s: Settings, fmt: Formats,
                        stripGlobal: Option<bool>, convertGlobal: Option<bool>)
    returns (r: Result<seq<Node>, Error>)
    requires i < |data| && WellFormed(data[i])
    requires forall j :: 0 <= j < i ==> Accepted(data[j])
    requires questions == QuizQuestions(data, i, s, fmt, Setting(stripGlobal, true), Setting(convertGlobal, false))
    ensures r.Failure? ==> FirstQuizError(data, 1) == Some(r.error)
    ensures r.Success? ==> forall j :: 0 <= j < i + 1 ==> Accepted(data[j])
    ensures r.Success? ==> r.value == QuizQuestions(data, i + 1, s, fmt, Setting(stripGlobal, true), Setting(convertGlobal, false))
  {
    var built := BuildMultichoice(i + 1, data[i], s, fmt, stripGlobal, convertGlobal);
    if built.Failure? {
      FirstQuizErrorAt(data, 1, i);
      return Failure(built.error);
    }
    AcceptedUpTo(data, i);
    r := Success(questions + [built.value]);
  }

  lemma AcceptedUpTo(data: seq<Question>, i: nat)
    requires i < |data| && Accepted(data[i])
    requires forall j :: 0 <= j < i ==> Accepted(data[j])
    ensures forall j :: 0 <= j < i + 1 ==> Accepted(data[j])
  {
  }
}
