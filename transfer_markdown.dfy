/**
 * The Markdown exports of the assessment converter (`questions_to_markdown`
 * for students, `questions_to_markdown_full` for teachers). Each entry of
 * the question list that is an object with a non-blank question text and a
 * non-empty options dict becomes a numbered block of lines; the number is
 * the entry's position in the list, counted from 1, so skipped entries
 * leave gaps. The lines are joined with newlines.
 */
module TransferMarkdown {
  import opened Wrappers
  import opened PyStr
  import opened QuestionModel
  import opened TransferText

  /**
   * The separator before a teacher's TRUE/FALSE mark. The source file holds
   * an em dash that was decoded as Windows-1252; these are the three code
   * points it then consists of.
   */
  const DASH := "\U{E2}\U{20AC}\U{201D}"

  /**
   * `chr(ord("A") + j)`. Dafny characters exclude the surrogates, which
   * stand in as U+FFFD, as does a value past U+10FFFF, where `chr` fails.
   */
  function Letter(j: nat): char {
    if 65 + j < 0xD800 || 0xE000 <= 65 + j < 0x11_0000 then (65 + j) as char else '\U{FFFD}'
  }

  /** Whether an export lists the entry at all. */
  predicate Listed(q: Question) {
    q.Object? && Strip(Get(q.question, "")) != "" && q.options.Dict? && q.options.entries != []
  }

  /** What an export reads from a listed entry: the stripped question and feedback texts and the options. */
  datatype Entry = Entry(text: string, options: seq<(string, Value)>, success: string, error: string)

  function Digest(q: Question): Option<Entry> {
    if Listed(q) then
      Some(Entry(Strip(Get(q.question, "")), q.options.entries, Strip(Get(q.success, "")), Strip(Get(q.error, ""))))
    else None
  }

  function Digests(questions: seq<Question>): (ds: seq<Option<Entry>>)
    ensures |ds| == |questions|
  {
    if questions == [] then [] else Digests(questions[..|questions| - 1]) + [Digest(questions[|questions| - 1])]
  }

  lemma {:induction false} DigestsAt(questions: seq<Question>, i: nat)
    requires i < |questions|
    ensures Digests(questions)[i] == Digest(questions[i])
  {
    if i < |questions| - 1 {
      DigestsAt(questions[..|questions| - 1], i);
    }
  }

  /** `f"**{idx}. {question_text}**"` */
  function Title(idx: nat, text: string): string {
    "**" + Decimal(idx) + ". " + text + "**"
  }

  /** The option's label and cleaned text, `**A.** text` (prefix stripping as chosen, never math conversion). */
  function OptionHead(j: nat, text: string, strip: bool): string {
    "**" + [Letter(j)] + ".** " + CleanOptionText(text, strip, false)
  }

  /** A student's option line; the two trailing spaces are a Markdown hard break. */
  function StudentOption(j: nat, text: string, strip: bool): string {
    OptionHead(j, text, strip) + "  "
  }

  function Status(flag: Value): string {
    if Truthy(flag) then "TRUE" else "FALSE"
  }

  /** A teacher's option line: the student's, with the option's truthiness marked. */
  function TeacherOption(j: nat, text: string, flag: Value, strip: bool): string {
    OptionHead(j, text, strip) + " " + DASH + " **" + Status(flag) + "**  "
  }

  /** The first `k` option lines of a student block. */
  function StudentOptions(entries: seq<(string, Value)>, k: nat, strip: bool): (r: seq<string>)
    requires k <= |entries|
    ensures |r| == k
    ensures forall j :: 0 <= j < k ==> r[j] == StudentOption(j, entries[j].0, strip)
  {
    if k == 0 then [] else StudentOptions(entries, k - 1, strip) + [StudentOption(k - 1, entries[k - 1].0, strip)]
  }

  /** The first `k` options of a teacher block: each marked line is followed by a blank one. */
  function TeacherOptions(entries: seq<(string, Value)>, k: nat, strip: bool): (r: seq<string>)
    requires k <= |entries|
    ensures |r| == 2 * k
  {
    if k == 0 then []
    else TeacherOptions(entries, k - 1, strip) + [TeacherOption(k - 1, entries[k - 1].0, entries[k - 1].1, strip), ""]
  }

  /** Line `2j` of the teacher's options is option `j`, marked; line `2j + 1` is blank. */
  lemma {:induction false} TeacherOptionsAt(entries: seq<(string, Value)>, k: nat, strip: bool, j: nat)
    requires j < k <= |entries|
    ensures TeacherOptions(entries, k, strip)[2 * j] == TeacherOption(j, entries[j].0, entries[j].1, strip)
    ensures TeacherOptions(entries, k, strip)[2 * j + 1] == ""
  {
    var prev := TeacherOptions(entries, k - 1, strip);
    AppendPair(prev, TeacherOption(k - 1, entries[k - 1].0, entries[k - 1].1, strip), "");
    if j < k - 1 {
      TeacherOptionsAt(entries, k - 1, strip, j);
    }
  }

  lemma AppendPair<T>(prev: seq<T>, x: T, y: T)
    ensures var r := prev + [x, y];
      && (forall i :: 0 <= i < |prev| ==> r[i] == prev[i])
      && r[|prev|] == x && r[|prev| + 1] == y
  {
  }

  /** A feedback paragraph: a caption, the text with a hard break, a blank line; nothing for blank text. */
  function FeedbackLines(caption: string, text: string): seq<string> {
    if text != "" then [caption, text + "  ", ""] else []
  }

  const SUCCESS_CAPTION := "*Feedback for correct answers:*"
  const ERROR_CAPTION := "*Feedback for incorrect/partial answers:*"

  function StudentBlock(idx: nat, e: Entry, strip: bool): seq<string> {
    [Title(idx, e.text), ""] + StudentOptions(e.options, |e.options|, strip) + [""]
  }

  function TeacherBlock(idx: nat, e: Entry, strip: bool): seq<string> {
    [Title(idx, e.text), ""] + TeacherOptions(e.options, |e.options|, strip) + Feedback(e) + [""]
  }

  /** The success paragraph, then the error paragraph, each only for non-blank text. */
  function Feedback(e: Entry): seq<string> {
    FeedbackLines(SUCCESS_CAPTION, e.success) + FeedbackLines(ERROR_CAPTION, e.error)
  }

  /** The lines the first `n` entries contribute; entry `i` is numbered `i + 1`. */
  function Lines(ds: seq<Option<Entry>>, n: nat, strip: bool, teacher: bool): seq<string>
    requires n <= |ds|
  {
    if n == 0 then [] else Lines(ds, n - 1, strip, teacher) + Contribution(ds, n, strip, teacher)
  }

  /** The lines the `n`-th entry adds: nothing when it is skipped. */
  function Contribution(ds: seq<Option<Entry>>, n: nat, strip: bool, teacher: bool): seq<string>
    requires 0 < n <= |ds|
  {
    match ds[n - 1]
    case None => []
    case Some(e) => if teacher then TeacherBlock(n, e, strip) else StudentBlock(n, e, strip)
  }

  /** `questions_to_markdown` */
  method QuestionsToMarkdown(questions: seq<Question>, strip: bool) returns (md: string)
    ensures md == Join("\n", Lines(Digests(questions), |questions|, strip, false))
  {
    var lines := ExportLines(questions, strip, false);
    md := Join("\n", lines);
  }

  /** `questions_to_markdown_full` */
  method QuestionsToMarkdownFull(questions: seq<Question>, strip: bool) returns (md: string)
    ensures md == Join("\n", Lines(Digests(questions), |questions|, strip, true))
  {
    var lines := ExportLines(questions, strip, true);
    md := Join("\n", lines);
  }

  /** The loop both exports share: the student's blocks, or with `teacher` the teacher's. */
  method ExportLines(questions: seq<Question>, strip: bool, teacher: bool) returns (lines: seq<string>)
    ensures lines == Lines(Digests(questions), |questions|, strip, teacher)
  {
    lines := [];
    for i := 0 to |questions|
      invariant lines == Lines(Digests(questions), i, strip, teacher)
    {
      var d := ReadEntry(questions, i);
      lines := AppendEntry(Digests(questions), i, d, lines, strip, teacher);
    }
  }

  /**
   * The checks at the head of either export's loop: an entry is skipped
   * unless it is an object with a non-blank question text and a non-empty
   * options dict.
   */
  method ReadEntry(questions: seq<Question>, i: nat) returns (d: Option<Entry>)
    requires i < |questions|
    ensures d == Digests(questions)[i]
  {
    var q := questions[i];
    DigestsAt(questions, i);
    if !q.Object? {
      return None;
    }
    var text := Strip(Get(q.question, ""));
    if text == "" {
      return None;
    }
    if !q.options.Dict? || q.options.entries == [] {
      return None;
    }
    d := Some(Entry(text, q.options.entries, Strip(Get(q.success, "")), Strip(Get(q.error, ""))));
  }

  /** The rest of one turn of the loop: a listed entry's block is appended under the number `i + 1`. */
  method AppendEntry(ghost ds: seq<Option<Entry>>, i: nat, d: Option<Entry>, lines: seq<string>, strip: bool, teacher: bool)
    returns (next: seq<string>)
    requires i < |ds| && ds[i] == d && lines == Lines(ds, i, strip, teacher)
    ensures next == Lines(ds, i + 1, strip, teacher)
  {
    match d
    case None =>
      next := lines;
    case Some(e) =>
      var block;
      if teacher {
        block := TeacherLines(i + 1, e, strip);
      } else {
        block := StudentLines(i + 1, e, strip);
      }
      next := lines + block;
  }

  /** The block one listed entry appends to the student version. */
  method StudentLines(idx: nat, e: Entry, strip: bool) returns (block: seq<string>)
    ensures block == StudentBlock(idx, e, strip)
  {
    var options := LetteredOptions(e.options, strip);
    block := ["**" + Decimal(idx) + ". " + e.text + "**", ""] + options + [""];
  }

  /** The student's option lines, lettered from `A`. */
  method LetteredOptions(options: seq<(string, Value)>, strip: bool) returns (lines: seq<string>)
    ensures lines == StudentOptions(options, |options|, strip)
  {
    lines := [];
    for j := 0 to |options|
      invariant lines == StudentOptions(options, j, strip)
    {
      lines := lines + ["**" + [Letter(j)] + ".** " + CleanOptionText(options[j].0, strip, false) + "  "];
    }
  }

  /** The block one listed entry appends to the teacher version. */
  method TeacherLines(idx: nat, e: Entry, strip: bool) returns (block: seq<string>)
    ensures block == TeacherBlock(idx, e, strip)
  {
    var options := MarkedOptions(e.options, strip);
    var success := FeedbackParagraph(SUCCESS_CAPTION, e.success);
    var error := FeedbackParagraph(ERROR_CAPTION, e.error);
    block := ["**" + Decimal(idx) + ". " + e.text + "**", ""] + options + (success + error) + [""];
  }

  /** The teacher's option lines, lettered from `A`, each with its TRUE/FALSE mark and a blank line. */
  method MarkedOptions(options: seq<(string, Value)>, strip: bool) returns (lines: seq<string>)
    ensures lines == TeacherOptions(options, |options|, strip)
  {
    lines := [];
    for j := 0 to |options|
      invariant lines == TeacherOptions(options, j, strip)
    {
      var status := if Truthy(options[j].1) then "TRUE" else "FALSE";
      lines := lines + ["**" + [Letter(j)] + ".** " + CleanOptionText(options[j].0, strip, false) + " " + DASH + " **" + status + "**  ", ""];
    }
  }

  /** The paragraph a feedback text adds, or nothing when it is blank. */
  method FeedbackParagraph(caption: string, text: string) returns (lines: seq<string>)
    ensures lines == FeedbackLines(caption, text)
  {
    lines := [];
    if text != "" {
      lines := [caption, text + "  ", ""];
    }
  }

  // ---------------------------------------------------------------
  // Properties of the exports
  // ---------------------------------------------------------------

  /** Where the parts of `p + m + f + [x]` sit. */
  lemma Layout<T>(p: seq<T>, m: seq<T>, f: seq<T>, x: T)
    ensures var b := p + m + f + [x];
      && |b| == |p| + |m| + |f| + 1
      && b[..|p|] == p
      && (forall k :: 0 <= k < |m| ==> b[|p| + k] == m[k])
      && b[|p| + |m|..|b| - 1] == f
      && b[|b| - 1] == x
  {
    var b := p + m + f + [x];
    assert b[|p| + |m|..|b| - 1] == f;
  }

  /** A student block: the title, a blank line, option `j` lettered `j` on line `2 + j`, a closing blank line. */
  lemma StudentBlockShape(idx: nat, e: Entry, strip: bool)
    ensures var b, options := StudentBlock(idx, e, strip), e.options;
      && |b| == |options| + 3
      && b[0] == Title(idx, e.text) && b[1] == "" && b[|b| - 1] == ""
      && forall j :: 0 <= j < |options| ==> b[2 + j] == StudentOption(j, options[j].0, strip)
  {
    var b, options := StudentBlock(idx, e, strip), e.options;
    Layout([Title(idx, e.text), ""], StudentOptions(options, |options|, strip), [], "");
    assert b == [Title(idx, e.text), ""] + StudentOptions(options, |options|, strip) + [] + [""];
  }

  /**
   * A teacher block: the title, a blank line, option `j` marked on line
   * `2 + 2j` and followed by a blank line, then the success and error
   * paragraphs for the non-blank feedback texts, then a closing blank line.
   */
  lemma TeacherBlockShape(idx: nat, e: Entry, strip: bool)
    ensures var b, options := TeacherBlock(idx, e, strip), e.options;
      && |b| == 2 * |options| + |Feedback(e)| + 3
      && b[0] == Title(idx, e.text) && b[1] == ""
      && (forall j :: 0 <= j < |options| ==> b[2 + 2 * j] == TeacherOption(j, options[j].0, options[j].1, strip) && b[3 + 2 * j] == "")
      && b[2 + 2 * |options|..|b| - 1] == Feedback(e)
      && b[|b| - 1] == ""
  {
    var b, options := TeacherBlock(idx, e, strip), e.options;
    Layout([Title(idx, e.text), ""], TeacherOptions(options, |options|, strip), Feedback(e), "");
    TeacherMarkedAt(b, options, strip);
  }

  /** Lines `2 + 2j` and `3 + 2j` of a block whose options start at line 2. */
  lemma TeacherMarkedAt(b: seq<string>, options: seq<(string, Value)>, strip: bool)
    requires |b| >= 2 + 2 * |options|
    requires forall k :: 0 <= k < 2 * |options| ==> b[2 + k] == TeacherOptions(options, |options|, strip)[k]
    ensures forall j :: 0 <= j < |options| ==>
              b[2 + 2 * j] == TeacherOption(j, options[j].0, options[j].1, strip) && b[3 + 2 * j] == ""
  {
    var marked := TeacherOptions(options, |options|, strip);
    forall j | 0 <= j < |options|
      ensures b[2 + 2 * j] == TeacherOption(j, options[j].0, options[j].1, strip) && b[3 + 2 * j] == ""
    {
      TeacherOptionsAt(options, |options|, strip, j);
      assert b[2 + 2 * j] == marked[2 * j];
      assert b[2 + (2 * j + 1)] == marked[2 * j + 1];
    }
  }

  /** The mark is `TRUE` exactly for a truthy flag, whatever the option's text. */
  lemma TeacherMarksTruthy(j: nat, text: string, flag: Value, strip: bool)
    ensures var line := TeacherOption(j, text, flag, strip);
      && line == StudentOption(j, text, strip)[..|StudentOption(j, text, strip)| - 2] + " " + DASH + " **" + Status(flag) + "**  "
      && (line[|line| - 10..] == "**TRUE**  " <==> Truthy(flag))
  {
    var head := OptionHead(j, text, strip);
    var line := TeacherOption(j, text, flag, strip);
    assert StudentOption(j, text, strip)[..|StudentOption(j, text, strip)| - 2] == head;
    var mark := if Truthy(flag) then "**TRUE**  " else "*FALSE**  ";
    assert line[|line| - 10..] == mark;
    assert !Truthy(flag) ==> mark[1] != "**TRUE**  "[1];
  }

  /** A listed entry's contribution starts with its title. */
  lemma ContributionTitled(ds: seq<Option<Entry>>, n: nat, strip: bool, teacher: bool)
    requires 0 < n <= |ds| && ds[n - 1].Some?
    ensures var c := Contribution(ds, n, strip, teacher); c != [] && c[0] == Title(n, ds[n - 1].value.text)
  {
  }

  /**
   * Every listed entry is exported under its position in the whole list,
   * counted from 1, whatever entries before it were skipped.
   */
  lemma ListedNumbered(questions: seq<Question>, i: nat, strip: bool, teacher: bool)
    requires i < |questions| && Listed(questions[i])
    ensures Title(i + 1, Strip(Get(questions[i].question, ""))) in Lines(Digests(questions), |questions|, strip, teacher)
  {
    var ds := Digests(questions);
    DigestsAt(questions, i);
    EntryNumbered(ds, |ds|, i, strip, teacher);
  }

  lemma {:induction false} EntryNumbered(ds: seq<Option<Entry>>, n: nat, i: nat, strip: bool, teacher: bool)
    requires i < n <= |ds| && ds[i].Some?
    ensures Title(i + 1, ds[i].value.text) in Lines(ds, n, strip, teacher)
  {
    if i < n - 1 {
      EntryNumbered(ds, n - 1, i, strip, teacher);
      InLeft(Title(i + 1, ds[i].value.text), Lines(ds, n - 1, strip, teacher), Contribution(ds, n, strip, teacher));
    } else {
      EntryNumberedLast(ds, n, strip, teacher);
    }
  }

  lemma EntryNumberedLast(ds: seq<Option<Entry>>, n: nat, strip: bool, teacher: bool)
    requires 0 < n <= |ds| && ds[n - 1].Some?
    ensures Title(n, ds[n - 1].value.text) in Lines(ds, n, strip, teacher)
  {
    ContributionTitled(ds, n, strip, teacher);
    InRight(Lines(ds, n - 1, strip, teacher), Contribution(ds, n, strip, teacher));
  }

  lemma InLeft<T>(x: T, a: seq<T>, b: seq<T>)
    requires x in a
    ensures x in a + b
  {
  }

  lemma InRight<T>(a: seq<T>, b: seq<T>)
    requires b != []
    ensures b[0] in a + b
  {
    assert (a + b)[|a|] == b[0];
  }

  /** An export is empty exactly when no entry is listed. */
  lemma MarkdownEmptyIff(questions: seq<Question>, strip: bool, teacher: bool)
    ensures Lines(Digests(questions), |questions|, strip, teacher) == [] <==> forall i :: 0 <= i < |questions| ==> !Listed(questions[i])
  {
    var ds := Digests(questions);
    LinesEmptyIff(ds, |ds|, strip, teacher);
    forall i | 0 <= i < |questions| ensures ds[i] == Digest(questions[i]) {
      DigestsAt(questions, i);
    }
  }

  lemma {:induction false} LinesEmptyIff(ds: seq<Option<Entry>>, n: nat, strip: bool, teacher: bool)
    requires n <= |ds|
    ensures Lines(ds, n, strip, teacher) == [] <==> forall i :: 0 <= i < n ==> ds[i].None?
  {
    if n > 0 {
      LinesEmptyIff(ds, n - 1, strip, teacher);
      if ds[n - 1].Some? {
        ContributionTitled(ds, n, strip, teacher);
      }
    }
  }

  /** The digits at the front of `s`. */
  function LeadingDigits(s: string): (r: string)
    ensures |r| <= |s| && AllDigits(r) && r == s[..|r|]
  {
    if s == [] || !IsAsciiDigit(s[0]) then "" else [s[0]] + LeadingDigits(s[1..])
  }

  lemma {:induction false} LeadingDigitsOf(digits: string, rest: string)
    requires AllDigits(digits) && rest != [] && !IsAsciiDigit(rest[0])
    ensures LeadingDigits(digits + rest) == digits
  {
    if digits != [] {
      assert (digits + rest)[1..] == digits[1..] + rest;
      LeadingDigitsOf(digits[1..], rest);
    } else {
      assert digits + rest == rest;
    }
  }

  /** The number in a title reads back as the entry's number, so distinct entries get distinct titles. */
  lemma TitleNumberRoundTrip(idx: nat, text: string)
    ensures DigitsValue(LeadingDigits(Title(idx, text)[2..])) == idx
  {
    var d := Decimal(idx);
    TitleSplit("**", d, ". ", text, "**");
    LeadingDigitsOf(d, ". " + text + "**");
    DecimalValue(idx);
  }

  lemma TitleSplit<T>(a: seq<T>, b: seq<T>, c: seq<T>, d: seq<T>, e: seq<T>)
    ensures (a + b + c + d + e)[|a|..] == b + (c + d + e)
  {
    assert a + b + c + d + e == a + (b + (c + d + e));
  }

  /** The entry's texts hold no line break. */
  predicate SingleLine(q: Question) {
    q.Object? ==>
      && '\n' !in Get(q.question, "") && '\n' !in Get(q.success, "") && '\n' !in Get(q.error, "")
      && (q.options.Dict? ==> forall j :: 0 <= j < |q.options.entries| ==> '\n' !in q.options.entries[j].0)
  }

  predicate EntrySingleLine(e: Entry) {
    && '\n' !in e.text && '\n' !in e.success && '\n' !in e.error
    && forall j :: 0 <= j < |e.options| ==> '\n' !in e.options[j].0
  }

  predicate NoBreaks(lines: seq<string>) {
    forall i :: 0 <= i < |lines| ==> '\n' !in lines[i]
  }

  /** Stripping cannot introduce a line break, so a single-line entry digests to a single-line one. */
  lemma DigestSingleLine(q: Question)
    requires Listed(q) && SingleLine(q)
    ensures EntrySingleLine(Digest(q).value)
  {
    StripNotIn(Get(q.question, ""), '\n');
    StripNotIn(Get(q.success, ""), '\n');
    StripNotIn(Get(q.error, ""), '\n');
  }

  lemma CleanSingleLine(s: string, strip: bool)
    requires '\n' !in s
    ensures '\n' !in CleanOptionText(s, strip, false)
  {
    if strip && PrefixMatchLen(s).Some? {
      NotInSlice(s, '\n', PrefixMatchLen(s).value, |s|);
    }
  }

  lemma NoBreaksAppend(a: seq<string>, b: seq<string>)
    requires NoBreaks(a) && NoBreaks(b)
    ensures NoBreaks(a + b)
  {
    forall i | 0 <= i < |a + b| ensures '\n' !in (a + b)[i] {
      if i >= |a| {
        assert (a + b)[i] == b[i - |a|];
      }
    }
  }

  lemma TitleSingleLine(idx: nat, text: string)
    requires '\n' !in text
    ensures '\n' !in Title(idx, text)
  {
    var d := Decimal(idx);
    assert forall k :: 0 <= k < |d| ==> d[k] != '\n';
  }

  lemma {:induction false} LetteredSingleLine(options: seq<(string, Value)>, k: nat, strip: bool)
    requires k <= |options| && forall j :: 0 <= j < |options| ==> '\n' !in options[j].0
    ensures NoBreaks(StudentOptions(options, k, strip))
  {
    if k > 0 {
      LetteredSingleLine(options, k - 1, strip);
      var line := StudentOption(k - 1, options[k - 1].0, strip);
      LetteredLineSingle(k - 1, options[k - 1].0, strip);
      NoBreaksAppend(StudentOptions(options, k - 1, strip), [line]);
    }
  }

  lemma {:induction false} MarkedSingleLine(options: seq<(string, Value)>, k: nat, strip: bool)
    requires k <= |options| && forall j :: 0 <= j < |options| ==> '\n' !in options[j].0
    ensures NoBreaks(TeacherOptions(options, k, strip))
  {
    if k > 0 {
      MarkedSingleLine(options, k - 1, strip);
      var line := TeacherOption(k - 1, options[k - 1].0, options[k - 1].1, strip);
      MarkedLineSingle(k - 1, options[k - 1].0, options[k - 1].1, strip);
      NoBreaksAppend(TeacherOptions(options, k - 1, strip), [line, ""]);
    }
  }

  lemma LetteredLineSingle(j: nat, text: string, strip: bool)
    requires '\n' !in text
    ensures '\n' !in StudentOption(j, text, strip)
  {
    CleanSingleLine(text, strip);
  }

  lemma MarkedLineSingle(j: nat, text: string, flag: Value, strip: bool)
    requires '\n' !in text
    ensures '\n' !in TeacherOption(j, text, flag, strip)
  {
    CleanSingleLine(text, strip);
  }

  lemma StudentBlockSingleLine(idx: nat, e: Entry, strip: bool)
    requires EntrySingleLine(e)
    ensures NoBreaks(StudentBlock(idx, e, strip))
  {
    TitleSingleLine(idx, e.text);
    LetteredSingleLine(e.options, |e.options|, strip);
    NoBreaksFour([Title(idx, e.text), ""], StudentOptions(e.options, |e.options|, strip), [], [""]);
    assert StudentBlock(idx, e, strip) == [Title(idx, e.text), ""] + StudentOptions(e.options, |e.options|, strip) + [] + [""];
  }

  lemma TeacherBlockSingleLine(idx: nat, e: Entry, strip: bool)
    requires EntrySingleLine(e)
    ensures NoBreaks(TeacherBlock(idx, e, strip))
  {
    TitleSingleLine(idx, e.text);
    MarkedSingleLine(e.options, |e.options|, strip);
    FeedbackSingleLine(e);
    NoBreaksFour([Title(idx, e.text), ""], TeacherOptions(e.options, |e.options|, strip), Feedback(e), [""]);
  }

  lemma NoBreaksFour(a: seq<string>, b: seq<string>, c: seq<string>, d: seq<string>)
    requires NoBreaks(a) && NoBreaks(b) && NoBreaks(c) && NoBreaks(d)
    ensures NoBreaks(a + b + c + d)
  {
    NoBreaksAppend(a, b);
    NoBreaksAppend(a + b, c);
    NoBreaksAppend(a + b + c, d);
  }

  lemma FeedbackSingleLine(e: Entry)
    requires '\n' !in e.success && '\n' !in e.error
    ensures NoBreaks(Feedback(e))
  {
    CaptionsSingleLine();
    ParagraphSingleLine(SUCCESS_CAPTION, e.success);
    ParagraphSingleLine(ERROR_CAPTION, e.error);
    NoBreaksAppend(FeedbackLines(SUCCESS_CAPTION, e.success), FeedbackLines(ERROR_CAPTION, e.error));
  }

  lemma CaptionsSingleLine()
    ensures '\n' !in SUCCESS_CAPTION && '\n' !in ERROR_CAPTION
  {
  }

  lemma ParagraphSingleLine(caption: string, text: string)
    requires '\n' !in caption && '\n' !in text
    ensures NoBreaks(FeedbackLines(caption, text))
  {
  }

  lemma {:induction false} LinesSingleLine(ds: seq<Option<Entry>>, n: nat, strip: bool, teacher: bool)
    requires n <= |ds|
    requires forall i :: 0 <= i < |ds| && ds[i].Some? ==> EntrySingleLine(ds[i].value)
    ensures NoBreaks(Lines(ds, n, strip, teacher))
  {
    if n > 0 {
      LinesSingleLine(ds, n - 1, strip, teacher);
      match ds[n - 1]
      case None =>
      case Some(e) =>
        if teacher {
          TeacherBlockSingleLine(n, e, strip);
        } else {
          StudentBlockSingleLine(n, e, strip);
        }
      NoBreaksAppend(Lines(ds, n - 1, strip, teacher), Contribution(ds, n, strip, teacher));
    }
  }

  /**
   * When no text holds a line break, splitting an export at its newlines
   * gives back exactly its lines; an export without listed entries is empty.
   */
  lemma MarkdownSplitsIntoLines(questions: seq<Question>, strip: bool, teacher: bool)
    requires forall i :: 0 <= i < |questions| ==> SingleLine(questions[i])
    ensures var lines := Lines(Digests(questions), |questions|, strip, teacher);
      && (lines == [] ==> Join("\n", lines) == "")
      && (lines != [] ==> SplitOn(Join("\n", lines), '\n') == lines)
  {
    var ds := Digests(questions);
    forall i | 0 <= i < |ds| && ds[i].Some? ensures EntrySingleLine(ds[i].value) {
      DigestsAt(questions, i);
      DigestSingleLine(questions[i]);
    }
    var lines := Lines(ds, |ds|, strip, teacher);
    LinesSingleLine(ds, |ds|, strip, teacher);
    if lines != [] {
      SplitOnJoin(lines, '\n');
    }
  }
}
