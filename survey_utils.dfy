/**
 * Greedy word wrapping for the survey PDF: words are added to the current
 * line while the measured width of the line stays within the limit.
 */
module SurveyUtils {
  import opened PyStr

  /** The first word of a line. */
  function FirstWord(line: string): string {
    line[..WordEnd(line)]
  }

  /** Appending text that starts with whitespace does not change the first word. */
  lemma {:induction false} WordEndAppend(a: string, b: string)
    requires b == [] || IsSpace(b[0])
    ensures WordEnd(a + b) == WordEnd(a)
  {
    if a == [] {
      assert a + b == b;
    } else if !IsSpace(a[0]) {
      assert (a + b)[1..] == a[1..] + b;
      WordEndAppend(a[1..], b);
    }
  }

  lemma FirstWordAppend(a: string, w: string)
    ensures FirstWord(a + " " + w) == FirstWord(a)
  {
    assert a + " " + w == a + (" " + w);
    WordEndAppend(a, " " + w);
    assert (a + (" " + w))[..WordEnd(a)] == a[..WordEnd(a)];
  }

  /** A word is its own first word. */
  lemma {:induction false} FirstWordOfWord(w: string)
    requires NoSpace(w)
    ensures FirstWord(w) == w
  {
    WholeWord(w);
  }

  lemma {:induction false} WholeWord(w: string)
    requires NoSpace(w)
    ensures WordEnd(w) == |w|
  {
    if w != [] {
      WholeWord(w[1..]);
    }
  }

  /** A line built from words fits when it holds more than one word. */
  predicate Fits(line: string, width: string -> nat, maxWidth: int) {
    ' ' in line ==> width(line) <= maxWidth
  }

  /** The next line's first word would not have fitted on this one. */
  predicate Full(line: string, next: string, width: string -> nat, maxWidth: int) {
    width(line + " " + FirstWord(next)) > maxWidth
  }

  /**
   * Every width test made while the line grew passed: each prefix of the
   * line that ends at a word's end and holds several words fits.
   */
  predicate Grown(line: string, width: string -> nat, maxWidth: int) {
    forall q :: 0 < q <= |line| && (q == |line| || line[q] == ' ') ==> Fits(line[..q], width, maxWidth)
  }

  predicate AllGrown(lines: seq<string>, width: string -> nat, maxWidth: int) {
    forall k :: 0 <= k < |lines| ==> Grown(lines[k], width, maxWidth)
  }

  /** A single word has no prefix of several words. */
  lemma WordGrown(w: string, width: string -> nat, maxWidth: int)
    requires NoSpace(w)
    ensures Grown(w, width, maxWidth)
  {
    forall q | 0 < q <= |w| && (q == |w| || w[q] == ' ')
      ensures Fits(w[..q], width, maxWidth)
    {
      assert forall i :: 0 <= i < q ==> w[..q][i] == w[i];
    }
  }

  /** A line grown by a word that fitted has passed every test so far. */
  lemma {:induction false} GrowLine(line: string, w: string, width: string -> nat, maxWidth: int)
    requires line != [] && NoSpace(w) && Grown(line, width, maxWidth)
    requires width(line + " " + w) <= maxWidth
    ensures Grown(line + " " + w, width, maxWidth)
  {
    var e := line + " " + w;
    forall q | |line| < q < |e|
      ensures e[q] != ' '
    {
      assert e[q] == w[q - |line| - 1];
    }
    forall q | 0 < q <= |e| && (q == |e| || e[q] == ' ')
      ensures Fits(e[..q], width, maxWidth)
    {
      if q < |line| {
        assert e[..q] == line[..q] && e[q] == line[q];
      } else if q == |line| {
        assert e[..q] == line[..|line|];
      } else {
        assert e[..q] == e;
      }
    }
  }

  /** Every line is words separated by single spaces. */
  predicate AllWords(lines: seq<string>) {
    forall k :: 0 <= k < |lines| ==> lines[k] != [] && Normalized(lines[k])
  }

  predicate AllFit(lines: seq<string>, width: string -> nat, maxWidth: int) {
    forall k :: 0 <= k < |lines| ==> Fits(lines[k], width, maxWidth)
  }

  /** Every line but the last was broken only because the next word did not fit. */
  predicate AllFull(lines: seq<string>, width: string -> nat, maxWidth: int) {
    forall k :: 0 <= k < |lines| - 1 ==> Full(lines[k], lines[k + 1], width, maxWidth)
  }

  lemma CloseLine(lines: seq<string>, line: string, width: string -> nat, maxWidth: int)
    requires AllWords(lines) && line != [] && Normalized(line)
    requires AllFit(lines, width, maxWidth) && Fits(line, width, maxWidth)
    requires AllFull(lines, width, maxWidth) && (lines != [] ==> Full(lines[|lines| - 1], line, width, maxWidth))
    ensures AllWords(lines + [line]) && AllFit(lines + [line], width, maxWidth) && AllFull(lines + [line], width, maxWidth)
  {
    var ls := lines + [line];
    assert forall k :: 0 <= k < |lines| ==> ls[k] == lines[k];
  }

  /** Extending the line's words by one word extends the line by a space and the word. */
  lemma ExtendLine(ls: seq<string>, cur: seq<string>, w: string)
    requires cur != []
    ensures Join(" ", ls + [Join(" ", cur + [w])]) == Join(" ", ls + [Join(" ", cur)]) + " " + w
  {
    JoinSnoc(" ", cur, w);
    if ls == [] {
      assert [] + [Join(" ", cur + [w])] == [Join(" ", cur + [w])];
      assert [] + [Join(" ", cur)] == [Join(" ", cur)];
    } else {
      JoinSnoc(" ", ls, Join(" ", cur + [w]));
      JoinSnoc(" ", ls, Join(" ", cur));
    }
  }

  /** The loop's state after the first `i` words: finished lines and the current line's words. */
  ghost predicate Wrapped(words: seq<string>, i: nat, lines: seq<string>, current: string, cur: seq<string>,
                          width: string -> nat, maxWidth: int)
  {
    && 1 <= i <= |words| && Words(words)
    && cur != [] && Words(cur) && current == Join(" ", cur)
    && Join(" ", lines + [current]) == Join(" ", words[..i])
    && AllWords(lines) && AllFit(lines, width, maxWidth) && AllFull(lines, width, maxWidth)
    && Fits(current, width, maxWidth) && Grown(current, width, maxWidth) && AllGrown(lines, width, maxWidth)
    && (lines != [] ==> Full(lines[|lines| - 1], current, width, maxWidth))
  }

  lemma JoinNext(words: seq<string>, i: nat)
    requires 1 <= i < |words|
    ensures Join(" ", words[..i + 1]) == Join(" ", words[..i]) + " " + words[i]
  {
    assert words[..i + 1] == words[..i] + [words[i]];
    JoinSnoc(" ", words[..i], words[i]);
  }

  /** The next word fits: the current line grows by a space and the word. */
  lemma ExtendStep(words: seq<string>, i: nat, lines: seq<string>, current: string, cur: seq<string>,
                   width: string -> nat, maxWidth: int)
    requires Wrapped(words, i, lines, current, cur, width, maxWidth) && i < |words|
    requires width(current + " " + words[i]) <= maxWidth
    ensures Wrapped(words, i + 1, lines, current + " " + words[i], cur + [words[i]], width, maxWidth)
  {
    var word := words[i];
    JoinNext(words, i);
    JoinSnoc(" ", cur, word);
    ExtendLine(lines, cur, word);
    FirstWordAppend(current, word);
    JoinWordsNonEmpty(cur);
    GrowLine(current, word, width, maxWidth);
  }

  /** The next word does not fit: the current line is finished and the word starts the next. */
  lemma BreakStep(words: seq<string>, i: nat, lines: seq<string>, current: string, cur: seq<string>,
                  width: string -> nat, maxWidth: int)
    requires Wrapped(words, i, lines, current, cur, width, maxWidth) && i < |words|
    requires width(current + " " + words[i]) > maxWidth
    ensures Wrapped(words, i + 1, lines + [current], words[i], [words[i]], width, maxWidth)
  {
    var word := words[i];
    JoinNext(words, i);
    JoinSnoc(" ", lines + [current], word);
    FirstWordOfWord(word);
    assert ' ' !in word;
    JoinWordsNormalized(cur);
    JoinWordsNonEmpty(cur);
    CloseLine(lines, current, width, maxWidth);
    WordGrown(word, width, maxWidth);
    GrownSnoc(lines, current, width, maxWidth);
  }

  lemma GrownSnoc(lines: seq<string>, line: string, width: string -> nat, maxWidth: int)
    requires AllGrown(lines, width, maxWidth) && Grown(line, width, maxWidth)
    ensures AllGrown(lines + [line], width, maxWidth)
  {
    assert forall k :: 0 <= k < |lines| ==> (lines + [line])[k] == lines[k];
  }

  /** After the last word the current line is finished too. */
  lemma FinishStep(words: seq<string>, lines: seq<string>, current: string, cur: seq<string>,
                   width: string -> nat, maxWidth: int)
    requires Wrapped(words, |words|, lines, current, cur, width, maxWidth)
    ensures Join(" ", lines + [current]) == Join(" ", words) && AllWords(lines + [current])
    ensures AllFit(lines + [current], width, maxWidth) && AllFull(lines + [current], width, maxWidth)
    ensures AllGrown(lines + [current], width, maxWidth)
  {
    JoinWordsNormalized(cur);
    JoinWordsNonEmpty(cur);
    CloseLine(lines, current, width, maxWidth);
    GrownSnoc(lines, current, width, maxWidth);
    assert words[..|words|] == words;
  }

  /**
   * One turn of the loop: the next word extends the current line when the
   * extended line is within `maxWidth`; otherwise the current line is
   * finished and the word starts the next one.
   */
  method WrapWord(words: seq<string>, i: nat, lines: seq<string>, current: string, ghost cur: seq<string>,
                  width: string -> nat, maxWidth: int)
    returns (lines': seq<string>, current': string, ghost cur': seq<string>)
    requires Wrapped(words, i, lines, current, cur, width, maxWidth) && i < |words|
    ensures width(current + " " + words[i]) <= maxWidth ==> lines' == lines && current' == current + " " + words[i]
    ensures width(current + " " + words[i]) > maxWidth ==> lines' == lines + [current] && current' == words[i]
    ensures Wrapped(words, i + 1, lines', current', cur', width, maxWidth)
  {
    var word := words[i];
    var testLine := current + " " + word;
    if width(testLine) <= maxWidth {
      ExtendStep(words, i, lines, current, cur, width, maxWidth);
      lines', current', cur' := lines, testLine, cur + [word];
    } else {
      BreakStep(words, i, lines, current, cur, width, maxWidth);
      lines', current', cur' := lines + [current], word, [word];
    }
  }

  /**
   * `wrap_text_to_width`: the lines, in order, hold the text's words
   * separated by single spaces; a line is extended by the next word only
   * when the extended line's width is within `maxWidth`, so every line of
   * several words fits, a line breaks only where the next word would not
   * have fitted; a line of one word may be wider than the limit.
   */
  method WrapTextToWidth(text: string, width: string -> nat, maxWidth: int) returns (lines: seq<string>)
    ensures SplitWs(text) == [] ==> lines == [""]
    ensures SplitWs(text) != [] ==> Join(" ", lines) == Join(" ", SplitWs(text)) && AllWords(lines)
    ensures lines != []
    ensures AllFit(lines, width, maxWidth)
    ensures AllFull(lines, width, maxWidth) && AllGrown(lines, width, maxWidth)
  {
    var words := SplitWs(text);
    if words == [] {
      return [""];
    }
    lines := WrapWords(words, width, maxWidth);
  }

  /** The loop of `wrap_text_to_width`, over the text's words. */
  method WrapWords(words: seq<string>, width: string -> nat, maxWidth: int) returns (lines: seq<string>)
    requires words != [] && Words(words)
    ensures Join(" ", lines) == Join(" ", words) && AllWords(lines) && lines != []
    ensures AllFit(lines, width, maxWidth) && AllFull(lines, width, maxWidth) && AllGrown(lines, width, maxWidth)
  {
    lines := [];
    var current := words[0];
    ghost var cur := [words[0]];
    assert Wrapped(words, 1, lines, current, cur, width, maxWidth) by {
      assert words[..1] == [words[0]];
      assert [] + [current] == [current];
      WordGrown(current, width, maxWidth);
    }
    for i := 1 to |words|
      invariant Wrapped(words, i, lines, current, cur, width, maxWidth)
    {
      lines, current, cur := WrapWord(words, i, lines, current, cur, width, maxWidth);
    }
    FinishStep(words, lines, current, cur, width, maxWidth);
    lines := lines + [current];
  }
}
