/**
 * The survey viewer's cleanup of question and answer labels: line-break
 * tags become spaces, any other tag becomes a space, and whitespace is
 * collapsed to single spaces.
 */
module SurveyApp {
  import opened PyStr

  // ---------------------------------------------------------------
  // Replacing fixed strings
  // ---------------------------------------------------------------

  /** Text holding no character that starts the pattern passes through `replace` untouched. */
  lemma {:induction false} ReplaceSkip(a: string, b: string, pat: string, rep: string)
    requires pat != [] && pat[0] !in a
    ensures Replace(a + b, pat, rep) == a + Replace(b, pat, rep)
    decreases |a|
  {
    if a != [] {
      var s := a + b;
      if |s| < |pat| {
        ReplaceShort(s, pat, rep);
        ReplaceShort(b, pat, rep);
      } else {
        assert s[..|pat|][0] == a[0];
        assert s[..|pat|] != pat;
        assert s[1..] == a[1..] + b;
        assert Replace(s, pat, rep) == [s[0]] + Replace(s[1..], pat, rep);
        ReplaceSkip(a[1..], b, pat, rep);
        assert a == [a[0]] + a[1..];
        assert s[0] == a[0];
      }
    } else {
      assert a + b == b;
    }
  }

  lemma ReplaceShort(s: string, pat: string, rep: string)
    requires pat != [] && |s| < |pat|
    ensures Replace(s, pat, rep) == s
  {
  }

  /** The pattern at the front is replaced and the scan resumes after it. */
  lemma ReplaceHit(b: string, pat: string, rep: string)
    requires pat != []
    ensures Replace(pat + b, pat, rep) == rep + Replace(b, pat, rep)
  {
    var s := pat + b;
    assert s[..|pat|] == pat;
    assert s[|pat|..] == b;
  }

  /** A separator that starts like the pattern but is not it, and holds no second start, passes through. */
  lemma ReplaceMiss(sep: string, b: string, pat: string, rep: string)
    requires pat != [] && |sep| >= |pat| && sep[..|pat|] != pat && pat[0] !in sep[1..]
    ensures Replace(sep + b, pat, rep) == sep + Replace(b, pat, rep)
  {
    var s := sep + b;
    assert s[..|pat|] == sep[..|pat|];
    assert Replace(s, pat, rep) == [s[0]] + Replace(s[1..], pat, rep);
    assert s[1..] == sep[1..] + b;
    ReplaceSkip(sep[1..], b, pat, rep);
    assert sep == [sep[0]] + sep[1..];
  }

  predicate Free(c: char, parts: seq<string>) {
    forall i :: 0 <= i < |parts| ==> c !in parts[i]
  }

  lemma FreeTail(c: char, parts: seq<string>)
    requires parts != [] && Free(c, parts)
    ensures Free(c, parts[1..])
  {
    var tail := parts[1..];
    assert forall i :: 0 <= i < |tail| ==> tail[i] == parts[i + 1];
  }

  /** Every occurrence of the pattern between the parts is replaced. */
  lemma {:induction false} ReplaceJoin(parts: seq<string>, pat: string, rep: string)
    requires pat != [] && Free(pat[0], parts)
    ensures Replace(Join(pat, parts), pat, rep) == Join(rep, parts)
  {
    if |parts| == 1 {
      ReplaceAbsent(parts[0], pat, rep);
    } else if |parts| > 1 {
      FreeTail(pat[0], parts);
      var t := Join(pat, parts[1..]);
      ReplaceJoin(parts[1..], pat, rep);
      ReplaceSkip(parts[0], pat + t, pat, rep);
      ReplaceHit(t, pat, rep);
      assert [parts[0]] + parts[1..] == parts;
      JoinCons(pat, parts[0], parts[1..]);
      JoinCons(rep, parts[0], parts[1..]);
      ConcatAssoc(parts[0], pat, t);
      ConcatAssoc(parts[0], rep, Join(rep, parts[1..]));
    }
  }

  /** A separator that is not the pattern is left between the parts. */
  lemma {:induction false} ReplaceJoinMiss(parts: seq<string>, sep: string, pat: string, rep: string)
    requires pat != [] && Free(pat[0], parts)
    requires |sep| >= |pat| && sep[..|pat|] != pat && pat[0] !in sep[1..]
    ensures Replace(Join(sep, parts), pat, rep) == Join(sep, parts)
  {
    if |parts| == 1 {
      ReplaceAbsent(parts[0], pat, rep);
    } else if |parts| > 1 {
      FreeTail(pat[0], parts);
      var t := Join(sep, parts[1..]);
      ReplaceJoinMiss(parts[1..], sep, pat, rep);
      ReplaceSkip(parts[0], sep + t, pat, rep);
      ReplaceMiss(sep, t, pat, rep);
      assert [parts[0]] + parts[1..] == parts;
      JoinCons(sep, parts[0], parts[1..]);
      ConcatAssoc(parts[0], sep, t);
    }
  }

  lemma {:induction false} JoinFree(c: char, sep: string, parts: seq<string>)
    requires c !in sep && Free(c, parts)
    ensures c !in Join(sep, parts)
  {
    if |parts| > 1 {
      FreeTail(c, parts);
      JoinFree(c, sep, parts[1..]);
    }
  }

  // ---------------------------------------------------------------
  // Removing tags: `re.sub(r"<.*?>", " ", text)`
  // ---------------------------------------------------------------

  /** The position of the first `>` or newline, or `|s|`. */
  function TagEnd(s: string): (k: nat)
    ensures k <= |s|
    ensures forall i :: 0 <= i < k ==> s[i] != '>' && s[i] != '\n'
    ensures k < |s| ==> s[k] == '>' || s[k] == '\n'
  {
    if s == [] || s[0] == '>' || s[0] == '\n' then 0 else 1 + TagEnd(s[1..])
  }

  /**
   * The pattern matches at the front: a `<` whose shortest extension to a
   * `>` does not cross a newline (`.` does not match one).
   */
  predicate OpensTag(s: string) {
    s != [] && s[0] == '<' && TagEnd(s[1..]) < |s| - 1 && s[TagEnd(s[1..]) + 1] == '>'
  }

  /** Every leftmost shortest tag replaced by a space, scanning left to right. */
  function StripTags(s: string): (r: string)
    ensures |r| <= |s|
    decreases |s|
  {
    if s == [] then []
    else if OpensTag(s) then " " + StripTags(s[TagEnd(s[1..]) + 2..])
    else [s[0]] + StripTags(s[1..])
  }

  /** No position starts a tag. */
  predicate TagFree(s: string)
    decreases |s|
  {
    s == [] || (!OpensTag(s) && TagFree(s[1..]))
  }

  /** Up to the next newline (or the end) there is no `>`. */
  predicate LineOpen(t: string) {
    TagEnd(t) == |t| || t[TagEnd(t)] == '\n'
  }

  lemma {:induction false} StripTagsLineOpen(t: string)
    requires LineOpen(t)
    ensures LineOpen(StripTags(t))
    decreases |t|
  {
    if t != [] && t[0] != '\n' {
      assert t[0] != '>';
      assert !OpensTag(t) by {
        if t[0] == '<' {
          assert TagEnd(t) == 1 + TagEnd(t[1..]);
        }
      }
      StripTagsLineOpen(t[1..]);
      var r := StripTags(t);
      assert r == [t[0]] + StripTags(t[1..]);
      assert r[1..] == StripTags(t[1..]);
    }
  }

  /** What is left holds no tag: a second pass would change nothing. */
  lemma {:induction false} StripTagsTagFree(s: string)
    ensures TagFree(StripTags(s))
    decreases |s|
  {
    if s != [] {
      var r := StripTags(s);
      if OpensTag(s) {
        var rest := s[TagEnd(s[1..]) + 2..];
        StripTagsTagFree(rest);
        assert r[1..] == StripTags(rest);
      } else {
        StripTagsTagFree(s[1..]);
        assert r[1..] == StripTags(s[1..]);
        if s[0] == '<' {
          var x := StripTags(s[1..]);
          StripTagsLineOpen(s[1..]);
          var k := TagEnd(x);
          assert k == |x| || x[k] == '\n';
          assert k < |x| ==> r[k + 1] == x[k];
        }
      }
    }
  }

  /** Text without tags is left as it is. */
  lemma {:induction false} TagFreeFixed(s: string)
    requires TagFree(s)
    ensures StripTags(s) == s
    decreases |s|
  {
    if s != [] {
      TagFreeFixed(s[1..]);
    }
  }

  /** Removing tags twice is removing them once. */
  lemma StripTagsIdempotent(s: string)
    ensures StripTags(StripTags(s)) == StripTags(s)
  {
    StripTagsTagFree(s);
    TagFreeFixed(StripTags(s));
  }

  /** Text without `<` holds no tag. */
  lemma {:induction false} NoAngleFixed(s: string)
    requires '<' !in s
    ensures StripTags(s) == s
    decreases |s|
  {
    if s != [] {
      NoAngleFixed(s[1..]);
    }
  }

  lemma {:induction false} TagEndPrefix(m: string, b: string)
    requires '>' !in m && '\n' !in m
    ensures TagEnd(m + ">" + b) == |m|
  {
    if m != [] {
      assert (m + ">" + b)[1..] == m[1..] + ">" + b;
      TagEndPrefix(m[1..], b);
    }
  }

  /**
   * A tag `<m>` on one line, after text without `<`, is replaced by one
   * space, and the scan goes on after its `>`.
   */
  lemma {:induction false} TagReplaced(a: string, m: string, b: string)
    requires '<' !in a && '>' !in m && '\n' !in m
    ensures StripTags(a + "<" + m + ">" + b) == a + " " + StripTags(b)
    decreases |a|
  {
    var s := a + "<" + m + ">" + b;
    if a == [] {
      assert s[1..] == m + ">" + b;
      TagEndPrefix(m, b);
      assert s[|m| + 2..] == b;
    } else {
      assert s[1..] == a[1..] + "<" + m + ">" + b;
      TagReplaced(a[1..], m, b);
    }
  }

  // ---------------------------------------------------------------
  // `strip_html_br`
  // ---------------------------------------------------------------

  const BR := "<br>"
  const BR_CLOSED := "<br/>"
  const BR_SPACED := "<br />"

  /** The three line-break spellings replaced by spaces, in the source's order. */
  function ReplaceBreaks(text: string): string {
    Replace(Replace(Replace(text, BR, " "), BR_CLOSED, " "), BR_SPACED, " ")
  }

  /** `strip_html_br`: breaks and tags become spaces, then whitespace is collapsed. */
  function StripHtmlBr(text: string): (r: string)
    ensures Normalized(r)
  {
    var words := SplitWs(StripTags(ReplaceBreaks(text)));
    JoinWordsNormalized(words);
    Join(" ", words)
  }

  /** Text without `<` only has its whitespace collapsed. */
  lemma PlainText(text: string)
    requires '<' !in text
    ensures StripHtmlBr(text) == Join(" ", SplitWs(text))
  {
    ReplaceAbsent(text, BR, " ");
    ReplaceAbsent(text, BR_CLOSED, " ");
    ReplaceAbsent(text, BR_SPACED, " ");
    NoAngleFixed(text);
  }

  /**
   * Pieces without `<`, separated by any one of the break spellings, come
   * out separated by spaces, then collapsed.
   */
  lemma BreaksBecomeSpaces(parts: seq<string>, br: string)
    requires br == BR || br == BR_CLOSED || br == BR_SPACED
    requires Free('<', parts)
    ensures StripHtmlBr(Join(br, parts)) == Join(" ", SplitWs(Join(" ", parts)))
  {
    var spaced := Join(" ", parts);
    JoinFree('<', " ", parts);
    assert BR[0] == '<' && BR_CLOSED[0] == '<' && BR_SPACED[0] == '<';
    if br == BR {
      ReplaceJoin(parts, BR, " ");
      ReplaceAbsent(spaced, BR_CLOSED, " ");
      ReplaceAbsent(spaced, BR_SPACED, " ");
    } else if br == BR_CLOSED {
      assert BR_CLOSED[..|BR|][3] != BR[3];
      assert BR_CLOSED[1..] == "br/>";
      ReplaceJoinMiss(parts, BR_CLOSED, BR, " ");
      ReplaceJoin(parts, BR_CLOSED, " ");
      ReplaceAbsent(spaced, BR_SPACED, " ");
    } else {
      assert BR_SPACED[..|BR|][3] != BR[3];
      assert BR_SPACED[..|BR_CLOSED|][3] != BR_CLOSED[3];
      assert BR_SPACED[1..] == "br />";
      ReplaceJoinMiss(parts, BR_SPACED, BR, " ");
      ReplaceJoinMiss(parts, BR_SPACED, BR_CLOSED, " ");
      ReplaceJoin(parts, BR_SPACED, " ");
    }
    assert ReplaceBreaks(Join(br, parts)) == spaced;
    NoAngleFixed(spaced);
  }
}
