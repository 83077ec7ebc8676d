/**
 * The YAML record the registration form produces for one learning
 * resource: a fixed template with comments, into which the form's fields
 * are placed, the description as a folded (`>`) block and the target
 * audiences as a list block.
 */
module CatalogYaml {
  import opened PyStr
  import CatalogText

  // ---------------------------------------------------------------
  // Lines of text
  // ---------------------------------------------------------------

  /** The characters `str.splitlines` breaks at. */
  predicate IsLineBreak(c: char) {
    || c == '\n' || c == '\r' || c == '\U{B}' || c == '\U{C}'
    || c == '\U{1C}' || c == '\U{1D}' || c == '\U{1E}'
    || c == '\U{85}' || c == '\U{2028}' || c == '\U{2029}'
  }

  predicate NoBreak(s: string) {
    forall i :: 0 <= i < |s| ==> !IsLineBreak(s[i])
  }

  /** Every line break is whitespace, so `strip` removes breaks at either end. */
  lemma BreakIsSpace(c: char)
    requires IsLineBreak(c)
    ensures IsSpace(c)
  {
  }

  /** The position of the first line break, or `|s|`. */
  function BreakAt(s: string): (k: nat)
    ensures k <= |s| && NoBreak(s[..k]) && (k < |s| ==> IsLineBreak(s[k]))
  {
    if s == [] || IsLineBreak(s[0]) then 0
    else
      var k := BreakAt(s[1..]);
      assert s[..k + 1] == [s[0]] + s[1..][..k];
      k + 1
  }

  /** Where the line after the break at `k` starts: `\r\n` counts as one break. */
  function NextLine(s: string, k: nat): (next: nat)
    requires k < |s|
    ensures k < next <= |s|
  {
    if s[k] == '\r' && k + 1 < |s| && s[k + 1] == '\n' then k + 2 else k + 1
  }

  /** `s.splitlines()`: `\r\n` is one break, and a final break opens no empty line. */
  function SplitLines(s: string): (ls: seq<string>)
    ensures forall i :: 0 <= i < |ls| ==> NoBreak(ls[i])
    decreases |s|
  {
    if s == [] then []
    else
      var k := BreakAt(s);
      if k == |s| then [s]
      else
        var next := NextLine(s, k);
        var rest := SplitLines(s[next..]);
        assert forall i :: 0 <= i < |rest| ==> ([s[..k]] + rest)[i + 1] == rest[i];
        [s[..k]] + rest
  }

  /** Text ending in something other than whitespace. */
  predicate EndsSolid(s: string) {
    s != [] && !IsSpace(s[|s| - 1])
  }

  /** Text ending in something other than whitespace has a last line that does too. */
  lemma {:induction false} SplitLinesLast(s: string)
    requires EndsSolid(s)
    ensures SplitLines(s) != [] && EndsSolid(SplitLines(s)[|SplitLines(s)| - 1])
    decreases |s|
  {
    var k := BreakAt(s);
    if k < |s| {
      var next := NextLine(s, k);
      BreakIsSpace(s[k]);
      assert next < |s| by {
        if next == |s| && next == k + 2 {
          BreakIsSpace(s[k + 1]);
        }
      }
      var t := s[next..];
      assert t[|t| - 1] == s[|s| - 1];
      SplitLinesLast(t);
      LastOfCons(s[..k], SplitLines(t));
    }
  }

  lemma LastOfCons<T>(x: T, rest: seq<T>)
    requires rest != []
    ensures ([x] + rest)[|[x] + rest| - 1] == rest[|rest| - 1]
  {
  }

  /** Each line followed by `\n`. */
  function Unlines(ls: seq<string>): string {
    if ls == [] then "" else ls[0] + "\n" + Unlines(ls[1..])
  }

  lemma {:induction false} UnlinesSnoc(ls: seq<string>, l: string)
    ensures Unlines(ls + [l]) == Unlines(ls) + l + "\n"
  {
    if ls == [] {
      assert [] + [l] == [l];
    } else {
      assert (ls + [l])[1..] == ls[1..] + [l];
      UnlinesSnoc(ls[1..], l);
    }
  }

  /** Lines with a newline after each, read back with `split("\n")`: the lines and one empty tail. */
  lemma {:induction false} SplitUnlines(ls: seq<string>)
    requires forall i :: 0 <= i < |ls| ==> '\n' !in ls[i]
    ensures SplitOn(Unlines(ls), '\n') == ls + [""]
  {
    if ls != [] {
      var tail := ls[1..];
      assert forall i :: 0 <= i < |tail| ==> tail[i] == ls[i + 1];
      SplitUnlines(tail);
      SplitOnPrefix(ls[0], Unlines(tail), '\n');
      assert ls[0] + "\n" + Unlines(tail) == ls[0] + ['\n'] + Unlines(tail);
      assert ls == [ls[0]] + tail;
    }
  }

  /** Non-empty lines, each followed by `\n`, are their join plus one `\n`. */
  lemma {:induction false} UnlinesJoin(ls: seq<string>)
    requires ls != []
    ensures Unlines(ls) == Join("\n", ls) + "\n"
  {
    if |ls| > 1 {
      UnlinesJoin(ls[1..]);
    }
  }

  /** `rstrip` of text ending in a solid character followed by whitespace drops just the whitespace. */
  lemma RStripSpaces(s: string, t: string)
    requires EndsSolid(s) && AllSpace(t)
    ensures RStrip(s + t) == s
  {
    var u := s + t;
    assert u[..|s|] == s;
  }

  // ---------------------------------------------------------------
  // The two blocks
  // ---------------------------------------------------------------

  /** `  - item` for each audience. */
  function Bullets(items: seq<string>): (ls: seq<string>)
    ensures |ls| == |items|
  {
    if items == [] then [] else ["  - " + items[0]] + Bullets(items[1..])
  }

  lemma {:induction false} BulletsSnoc(items: seq<string>, x: string)
    ensures Bullets(items + [x]) == Bullets(items) + ["  - " + x]
  {
    if items == [] {
      assert [] + [x] == [x];
    } else {
      assert (items + [x])[1..] == items[1..] + [x];
      BulletsSnoc(items[1..], x);
    }
  }

  lemma {:induction false} BulletsAt(items: seq<string>, i: nat)
    requires i < |items|
    ensures Bullets(items)[i] == "  - " + items[i]
  {
    if i > 0 {
      BulletsAt(items[1..], i - 1);
    }
  }

  const FIT_KEY := "fit_for:"
  const FIT_NONE := "fit_for: []"

  /** The `fit_for` block before the template's `rstrip`. */
  function FitForBlock(items: seq<string>): string {
    if items != [] then FIT_KEY + "\n" + Unlines(Bullets(items)) else FIT_NONE + "\n"
  }

  /** The loop that builds the `fit_for` block. */
  method BuildFitForBlock(items: seq<string>) returns (block: string)
    ensures block == FitForBlock(items)
  {
    if items != [] {
      block := FIT_KEY + "\n";
      for i := 0 to |items|
        invariant block == FIT_KEY + "\n" + Unlines(Bullets(items[..i]))
      {
        assert items[..i + 1] == items[..i] + [items[i]];
        BulletsSnoc(items[..i], items[i]);
        UnlinesSnoc(Bullets(items[..i]), "  - " + items[i]);
        block := block + "  - " + items[i] + "\n";
      }
      assert items[..|items|] == items;
    } else {
      block := FIT_NONE + "\n";
    }
  }

  /** `description_short.strip().splitlines() or [""]` */
  function DescLines(description: string): (ls: seq<string>)
    ensures ls != []
  {
    var ls := SplitLines(Strip(description));
    if ls == [] then [""] else ls
  }

  /** Each description line indented by two spaces, trailing whitespace removed. */
  function Indented(ls: seq<string>): (r: seq<string>)
    ensures |r| == |ls|
  {
    if ls == [] then [] else ["  " + RStrip(ls[0])] + Indented(ls[1..])
  }

  lemma {:induction false} IndentedSnoc(ls: seq<string>, l: string)
    ensures Indented(ls + [l]) == Indented(ls) + ["  " + RStrip(l)]
  {
    if ls == [] {
      assert [] + [l] == [l];
    } else {
      assert (ls + [l])[1..] == ls[1..] + [l];
      IndentedSnoc(ls[1..], l);
    }
  }

  lemma {:induction false} IndentedAt(ls: seq<string>, i: nat)
    requires i < |ls|
    ensures Indented(ls)[i] == "  " + RStrip(ls[i])
  {
    if i > 0 {
      IndentedAt(ls[1..], i - 1);
    }
  }

  const DESC_KEY := "description_short: >"

  /** The description block for the given description lines. */
  function DescBlockOf(lines: seq<string>): string {
    DESC_KEY + "\n" + Unlines(Indented(lines))
  }

  /** The description block before the template's `rstrip`. */
  function DescBlock(description: string): string {
    DescBlockOf(DescLines(description))
  }

  lemma DescStep(key: string, lines: seq<string>, i: nat)
    requires i < |lines|
    ensures key + Unlines(Indented(lines[..i + 1])) == key + Unlines(Indented(lines[..i])) + "  " + RStrip(lines[i]) + "\n"
  {
    assert lines[..i + 1] == lines[..i] + [lines[i]];
    IndentedSnoc(lines[..i], lines[i]);
    UnlinesSnoc(Indented(lines[..i]), "  " + RStrip(lines[i]));
  }

  /** The loop that builds the description block. */
  method BuildDescBlock(description: string) returns (block: string)
    ensures block == DescBlock(description)
  {
    block := IndentLines(DESC_KEY + "\n", DescLines(description));
  }

  /** Appends each line, right-stripped and indented by two spaces, to `key`. */
  method IndentLines(key: string, lines: seq<string>) returns (block: string)
    ensures block == key + Unlines(Indented(lines))
  {
    block := key;
    assert lines[..0] == [] && key + Unlines(Indented([])) == key;
    for i := 0 to |lines|
      invariant block == key + Unlines(Indented(lines[..i]))
    {
      DescStep(key, lines, i);
      block := block + "  " + RStrip(lines[i]) + "\n";
    }
    assert lines[..|lines|] == lines;
  }

  // ---------------------------------------------------------------
  // The other fields
  // ---------------------------------------------------------------

  /** `"[a, b, c]"`, or `"[]"` for no keywords. */
  function KeywordsInline(keywords: seq<string>): string {
    if keywords != [] then "[" + Join(", ", keywords) + "]" else "[]"
  }

  /** The empty case is the same bracketed join, so the keywords always read back from between the brackets. */
  lemma KeywordsInlineRoundTrip(keywords: seq<string>)
    requires CatalogText.CleanKeywords(keywords)
    ensures KeywordsInline(keywords) == "[" + Join(", ", keywords) + "]"
    ensures var s := KeywordsInline(keywords); CatalogText.KeywordsOf(s[1..|s| - 1]) == keywords
  {
    var j := Join(", ", keywords);
    assert keywords == [] ==> j == "" && "[" + j + "]" == "[]";
    BracketedInner('[', j, ']');
    CatalogText.KeywordsRoundTrip(keywords);
  }

  lemma BracketedInner<T>(open: T, m: seq<T>, close: T)
    ensures var s := [open] + m + [close]; s[1..|s| - 1] == m
  {
  }

  const PLACEHOLDER := "TO_BE_FILLED_BY_COURSE_MANAGER"

  /**
   * `author_institute.strip() or "TO_BE_FILLED_BY_COURSE_MANAGER"`: never
   * empty, and never with whitespace at either end (so `strip` leaves it).
   */
  function Institute(affiliation: string): (r: string)
    ensures r != [] && !IsSpace(r[0]) && !IsSpace(r[|r| - 1])
    ensures AllSpace(affiliation) ==> r == PLACEHOLDER
    ensures !AllSpace(affiliation) ==> r == Strip(affiliation)
  {
    StripEmptyIff(affiliation);
    var v := Strip(affiliation);
    if v == "" then PLACEHOLDER else v
  }

  // ---------------------------------------------------------------
  // The record
  // ---------------------------------------------------------------

  /** The fields the form passes to `build_yaml_text`. */
  datatype Submission = Submission(
    topic: string,
    title: string,
    resourceType: string,
    url: string,
    description: string,
    keywords: seq<string>,
    timeRequired: string,
    prerequisites: string,
    fitFor: seq<string>,
    author: string,
    institute: string)

  const HEAD_IDENTIFICATION := "# --- RESOURCE IDENTIFICATION AND TOPIC MAPPING ---"
  const NOTE_ITEM_ID := "# item_id: A unique, simple slug for this item (e.g., aquifer_test_1). "
  const NOTE_TOPIC := " # Must match the title of the parent catalog page."
  const NOTE_TITLE := "    # The full, descriptive name of the resource."
  const HEAD_TYPE := "# --- TYPE AND ACCESS ---"
  const NOTE_TYPE := "            # Required. Options: Streamlit app, Jupyter Notebook, Video, Dataset, Other."
  const NOTE_URL := "      # The direct link to launch the app, notebook on Binder, or video on YouTube."
  const NOTE_DATE := "               # Release date in YYYY-MM-DD format."
  const HEAD_CONTENT := "# --- CONTENT AND METADATA ---"
  const HEAD_FIT := "# --- EDUCATIONAL FIT ---"
  const NOTE_TIME := "             # Estimated time for a student to complete the activity (e.g., 30 minutes, 1.5 hours)."
  const NOTE_PREREQUISITES := "       # Required prior knowledge (e.g., Darcy's Law, Python basics, basic calculus)."
  const HEAD_AUTHOR := "# --- AUTHOR AND REFERENCE ---"
  const NOTE_REFERENCES := "                            # List any published papers, DOIs, or source materials related to this resource."
  const NOTE_IMAGE := "# image_url: Optional path to a screenshot for the catalog page (e.g., /assets/images/resources/flow_tool_screenshot.png)"

  /** The template's lines before the description block. */
  function HeadLines(s: Submission): (ls: seq<string>)
    ensures |ls| == 13
  {
    [ HEAD_IDENTIFICATION, NOTE_ITEM_ID, "",
      "item_id: " + PLACEHOLDER,
      "topic: " + s.topic + NOTE_TOPIC,
      "title: " + s.title + NOTE_TITLE,
      "",
      HEAD_TYPE,
      "resource_type: " + s.resourceType + NOTE_TYPE,
      "url: " + s.url + NOTE_URL,
      "date_released: " + PLACEHOLDER + NOTE_DATE,
      "",
      HEAD_CONTENT ]
  }

  /** The template's lines between the two blocks. */
  function MiddleLines(s: Submission): (ls: seq<string>)
    ensures |ls| == 5
  {
    [ "keywords: " + KeywordsInline(s.keywords),
      "",
      HEAD_FIT,
      "time_required: " + s.timeRequired + NOTE_TIME,
      "prerequisites: " + Strip(s.prerequisites) + NOTE_PREREQUISITES ]
  }

  /** The template's lines after the `fit_for` block; the last is empty, for the final newline. */
  function TailLines(s: Submission): (ls: seq<string>)
    ensures |ls| == 7
  {
    [ "",
      HEAD_AUTHOR,
      "author: " + s.author,
      "author_institute: " + Institute(s.institute),
      "references: []" + NOTE_REFERENCES,
      NOTE_IMAGE,
      "" ]
  }

  /** The template with the blocks in place, one element per `\n`-separated piece. */
  function Template(s: Submission): seq<string> {
    HeadLines(s) + [RStrip(DescBlock(s.description))] + MiddleLines(s)
      + [RStrip(FitForBlock(s.fitFor))] + TailLines(s)
  }

  /** `build_yaml_text` */
  function YamlText(s: Submission): string {
    Join("\n", Template(s))
  }

  /** `build_yaml_text`, with its two loops. */
  method BuildYamlText(s: Submission) returns (yaml: string)
    ensures yaml == YamlText(s)
  {
    var fitFor := BuildFitForBlock(s.fitFor);
    var desc := BuildDescBlock(s.description);
    yaml := Join("\n", HeadLines(s) + [RStrip(desc)] + MiddleLines(s) + [RStrip(fitFor)] + TailLines(s));
  }

  // ---------------------------------------------------------------
  // What the blocks look like line by line
  // ---------------------------------------------------------------

  /** The description lines as they appear in the YAML, after the template's `rstrip`. */
  function SectionOf(lines: seq<string>): seq<string> {
    if lines == [""] then [DESC_KEY] else [DESC_KEY] + Indented(lines)
  }

  function DescSection(description: string): seq<string> {
    SectionOf(DescLines(description))
  }

  /** The `fit_for` lines as they appear in the YAML. */
  function FitSection(items: seq<string>): seq<string> {
    if items == [] then [FIT_NONE] else [FIT_KEY] + Bullets(items)
  }

  /** A join ends as its last part does. */
  lemma {:induction false} JoinEnds(parts: seq<string>)
    requires parts != [] && EndsSolid(parts[|parts| - 1])
    ensures EndsSolid(Join("\n", parts))
  {
    if |parts| > 1 {
      JoinEnds(parts[1..]);
    }
  }

  /** A key line, then lines each followed by `\n`: after `rstrip`, all of them joined by `\n`. */
  lemma KeyedBlock(key: string, lines: seq<string>)
    requires lines != [] && EndsSolid(lines[|lines| - 1])
    ensures RStrip(key + "\n" + Unlines(lines)) == Join("\n", [key] + lines)
  {
    var joined := Join("\n", lines);
    JoinEnds(lines);
    UnlinesJoin(lines);
    assert key + "\n" + Unlines(lines) == (key + "\n" + joined) + "\n";
    RStripSpaces(key + "\n" + joined, "\n");
    JoinCons("\n", key, lines);
  }

  /** A blank description leaves only the key line. */
  lemma BlankDescBlock()
    ensures RStrip(DescBlockOf([""])) == DESC_KEY
  {
    assert RStrip("") == "";
    assert "  " + "" == "  ";
    assert Indented([""]) == ["  "];
    assert Unlines(["  "]) == "  \n";
    assert DescBlockOf([""]) == DESC_KEY + "\n  \n";
    assert EndsSolid(DESC_KEY);
    RStripSpaces(DESC_KEY, "\n  \n");
  }

  /** The key line, then the lines indented, when the last line ends solid. */
  lemma {:induction false} DescBlockOfJoin(lines: seq<string>)
    requires lines != [] && (lines != [""] ==> EndsSolid(lines[|lines| - 1]))
    ensures RStrip(DescBlockOf(lines)) == Join("\n", SectionOf(lines))
  {
    if lines == [""] {
      BlankDescBlock();
    } else {
      var indented := Indented(lines);
      IndentedAt(lines, |lines| - 1);
      RStripSpaces(lines[|lines| - 1], "");
      KeyedBlock(DESC_KEY, indented);
    }
  }

  /** The description's lines: single lines, and the last one ends solid unless the description is blank. */
  lemma DescLinesShape(description: string)
    ensures forall i :: 0 <= i < |DescLines(description)| ==> NoBreak(DescLines(description)[i])
    ensures var ls := DescLines(description); ls != [""] ==> EndsSolid(ls[|ls| - 1])
  {
    var stripped := Strip(description);
    if stripped != [] {
      assert EndsSolid(stripped);
      SplitLinesLast(stripped);
    }
  }

  /**
   * The description block as it is written: its key line followed by one
   * line per line of the stripped description, each indented by two spaces
   * with its trailing whitespace removed; a blank description leaves the
   * key line alone.
   */
  lemma DescBlockJoin(description: string)
    ensures RStrip(DescBlock(description)) == Join("\n", DescSection(description))
  {
    DescLinesShape(description);
    DescBlockOfJoin(DescLines(description));
  }

  /** The section's lines hold no newline. */
  lemma SectionNoNewline(lines: seq<string>)
    requires forall i :: 0 <= i < |lines| ==> NoBreak(lines[i])
    ensures forall i :: 0 <= i < |SectionOf(lines)| ==> '\n' !in SectionOf(lines)[i]
  {
    var sec := SectionOf(lines);
    assert '\n' !in DESC_KEY;
    if lines != [""] {
      IndentedNoNewline(lines);
      assert forall i :: 1 <= i < |sec| ==> sec[i] == Indented(lines)[i - 1];
    }
  }

  /** Read back with `split("\n")`, the description block gives exactly those lines. */
  lemma DescBlockLines(description: string)
    ensures SplitOn(RStrip(DescBlock(description)), '\n') == DescSection(description)
  {
    DescBlockJoin(description);
    DescLinesShape(description);
    SectionNoNewline(DescLines(description));
    SplitOnJoin(DescSection(description), '\n');
  }

  lemma IndentedNoNewline(ls: seq<string>)
    requires forall i :: 0 <= i < |ls| ==> NoBreak(ls[i])
    ensures forall i :: 0 <= i < |ls| ==> '\n' !in Indented(ls)[i]
  {
    forall i | 0 <= i < |ls| ensures '\n' !in Indented(ls)[i] {
      IndentedAt(ls, i);
      var r := RStrip(ls[i]);
      assert forall j :: 0 <= j < |r| ==> r[j] == ls[i][j];
    }
  }

  /**
   * The `fit_for` block as it is written: `fit_for: []` for no audiences,
   * else `fit_for:` and one `  - item` line per audience, in order (when the
   * last audience does not end in whitespace, which the template's `rstrip`
   * would remove).
   */
  lemma FitForBlockJoin(items: seq<string>)
    requires items != [] ==> EndsSolid(items[|items| - 1])
    ensures RStrip(FitForBlock(items)) == Join("\n", FitSection(items))
  {
    if items == [] {
      RStripSpaces(FIT_NONE, "\n");
    } else {
      BulletsAt(items, |items| - 1);
      KeyedBlock(FIT_KEY, Bullets(items));
    }
  }

  /** Read back with `split("\n")`, single-line audiences give exactly those lines. */
  lemma FitSectionNoNewline(items: seq<string>)
    requires forall i :: 0 <= i < |items| ==> '\n' !in items[i]
    ensures forall i :: 0 <= i < |FitSection(items)| ==> '\n' !in FitSection(items)[i]
  {
    if items == [] {
      assert '\n' !in FIT_NONE;
    } else {
      var sec := FitSection(items);
      assert '\n' !in FIT_KEY;
      forall i | 1 <= i < |sec| ensures '\n' !in sec[i] {
        BulletsAt(items, i - 1);
        BulletNoNewline(items[i - 1]);
      }
    }
  }

  lemma BulletNoNewline(item: string)
    requires '\n' !in item
    ensures '\n' !in "  - " + item
  {
  }

  lemma FitForBlockLines(items: seq<string>)
    requires forall i :: 0 <= i < |items| ==> '\n' !in items[i]
    requires items != [] ==> EndsSolid(items[|items| - 1])
    ensures SplitOn(RStrip(FitForBlock(items)), '\n') == FitSection(items)
  {
    FitForBlockJoin(items);
    FitSectionNoNewline(items);
    SplitOnJoin(FitSection(items), '\n');
  }

  /**
   * The whole record, line by line: the template's header lines with the
   * topic, title, type and URL in place, the description block, the
   * keywords, time and prerequisites lines, the `fit_for` block, and the
   * author lines, the closing comment and an empty last piece for the final
   * newline.
   */
  lemma YamlJoin(s: Submission)
    requires s.fitFor != [] ==> EndsSolid(s.fitFor[|s.fitFor| - 1])
    ensures YamlText(s) ==
      Join("\n", HeadLines(s) + DescSection(s.description) + MiddleLines(s) + FitSection(s.fitFor) + TailLines(s))
  {
    DescBlockJoin(s.description);
    FitForBlockJoin(s.fitFor);
    JoinBlocks(HeadLines(s), DescSection(s.description), MiddleLines(s), FitSection(s.fitFor), TailLines(s));
  }

  /** Joining two joined blocks in place is joining their lines in place. */
  lemma JoinBlocks(head: seq<string>, desc: seq<string>, middle: seq<string>, fit: seq<string>, tail: seq<string>)
    requires head != [] && desc != [] && middle != [] && fit != [] && tail != []
    ensures Join("\n", head + [Join("\n", desc)] + middle + [Join("\n", fit)] + tail)
      == Join("\n", head + desc + middle + fit + tail)
  {
    var d, f := Join("\n", desc), Join("\n", fit);
    JoinAppend("\n", head, [d]);
    JoinAppend("\n", head + [d], middle);
    JoinAppend("\n", head + [d] + middle, [f]);
    JoinAppend("\n", head + [d] + middle + [f], tail);
    JoinAppend("\n", head, desc);
    JoinAppend("\n", head + desc, middle);
    JoinAppend("\n", head + desc + middle, fit);
    JoinAppend("\n", head + desc + middle + fit, tail);
  }
}
