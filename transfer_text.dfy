/**
 * The text transforms of the assessment converter: option-label stripping
 * (the regular expression `^\s*([A-Za-z0-9]+)[\)\.\:]\s+`), inline-math
 * rewriting (the regular expression `\$(?!\$)(.+?)\$(?!\$)` replaced by
 * `$$\1$$`), their composition for option and general text, and the
 * paragraph wrapper used for Moodle HTML.
 */
module TransferText {
  import opened Wrappers
  import opened PyStr

  // ---------------------------------------------------------------
  // Option-label stripping
  // ---------------------------------------------------------------

  predicate IsLabelEnd(c: char) { c == ')' || c == '.' || c == ':' }

  /** The end of the run of whitespace that starts at `i`. */
  function SpaceEnd(s: string, i: nat): (j: nat)
    requires i <= |s|
    ensures i <= j <= |s| && (forall k :: i <= k < j ==> IsSpace(s[k])) && (j == |s| || !IsSpace(s[j]))
    decreases |s| - i
  {
    if i == |s| || !IsSpace(s[i]) then i else SpaceEnd(s, i + 1)
  }

  /** The end of the run of ASCII letters and digits that starts at `i`. */
  function AlnumEnd(s: string, i: nat): (j: nat)
    requires i <= |s|
    ensures i <= j <= |s| && (forall k :: i <= k < j ==> IsAsciiAlnum(s[k])) && (j == |s| || !IsAsciiAlnum(s[j]))
    decreases |s| - i
  {
    if i == |s| || !IsAsciiAlnum(s[i]) then i else AlnumEnd(s, i + 1)
  }

  /**
   * The length of the regular expression's match at the start of `s`, if it
   * matches there: leading whitespace, a run of letters and digits, one of
   * `)`, `.`, `:`, then all the whitespace that follows (at least one).
   */
  function PrefixMatchLen(s: string): (r: Option<nat>)
    ensures r.Some? ==> r.value <= |s|
  {
    var a := SpaceEnd(s, 0);
    var b := AlnumEnd(s, a);
    if b == a || b >= |s| || !IsLabelEnd(s[b]) then None
    else
      var n := SpaceEnd(s, b + 1);
      if n == b + 1 then None else Some(n)
  }

  /** `_opt_prefix.sub("", s)`: the anchored pattern can match at most once. */
  function StripOptionPrefix(s: string): string {
    match PrefixMatchLen(s)
    case None => s
    case Some(n) => s[n..]
  }

  /**
   * `s[..n]` has the shape of a label: whitespace `s[..a]`, letters and
   * digits `s[a..b]` (at least one), a terminator `s[b]`, whitespace
   * `s[b+1..n]` (at least one).
   */
  predicate LabelShape(s: string, a: nat, b: nat, n: nat) {
    && a < b && b + 1 < n <= |s|
    && (forall k :: 0 <= k < a ==> IsSpace(s[k]))
    && (forall k :: a <= k < b ==> IsAsciiAlnum(s[k]))
    && IsLabelEnd(s[b])
    && (forall k :: b + 1 <= k < n ==> IsSpace(s[k]))
  }

  /** What is removed has the shape of a label, and the greedy `\s+` leaves no whitespace behind it. */
  lemma PrefixMatchSound(s: string)
    requires PrefixMatchLen(s).Some?
    ensures var n := PrefixMatchLen(s).value;
      && (exists a, b :: LabelShape(s, a, b, n))
      && (n == |s| || !IsSpace(s[n]))
  {
    var a := SpaceEnd(s, 0);
    var b := AlnumEnd(s, a);
    assert LabelShape(s, a, b, PrefixMatchLen(s).value);
  }

  /** Any label-shaped prefix is matched, and the match reaches at least as far. */
  lemma PrefixMatchComplete(s: string, a: nat, b: nat, n: nat)
    requires LabelShape(s, a, b, n)
    ensures PrefixMatchLen(s).Some? && PrefixMatchLen(s).value >= n
  {
    var a' := SpaceEnd(s, 0);
    assert !IsSpace(s[a]);
    assert a' == a;
    assert !IsAsciiAlnum(s[b]);
    var b' := AlnumEnd(s, a);
    assert b' == b;
    var n' := SpaceEnd(s, b + 1);
    assert IsSpace(s[b + 1]);
    assert n' >= n;
  }

  /** Text that does not start with a label is returned unchanged. */
  lemma StripWithoutLabel(s: string)
    requires forall a, b, n :: !LabelShape(s, a, b, n)
    ensures StripOptionPrefix(s) == s
  {
    if PrefixMatchLen(s).Some? {
      PrefixMatchSound(s);
      assert false;
    }
  }

  /** Stripping is not idempotent: a second label survives one pass. */
  lemma StripNotIdempotent()
    ensures StripOptionPrefix("A) B) x") == "B) x"
    ensures StripOptionPrefix(StripOptionPrefix("A) B) x")) == "x"
  {
    var s := "A) B) x";
    assert SpaceEnd(s, 0) == 0;
    assert AlnumEnd(s, 1) == 1;
    assert SpaceEnd(s, 3) == 3;
    assert SpaceEnd(s, 2) == 3;
    assert PrefixMatchLen(s) == Some(3);
    assert s[3..] == "B) x";
    var t := "B) x";
    assert SpaceEnd(t, 0) == 0;
    assert AlnumEnd(t, 1) == 1;
    assert SpaceEnd(t, 3) == 3;
    assert SpaceEnd(t, 2) == 3;
    assert PrefixMatchLen(t) == Some(3);
    assert t[3..] == "x";
  }

  // ---------------------------------------------------------------
  // Inline math
  // ---------------------------------------------------------------

  /**
   * Where the lazy group `(.+?)` of a match starting with `s[0] == '$'` ends:
   * the least `j >= 2` with `s[j] == '$'` not followed by another `$`, provided
   * `s[1..j]` holds no newline (`.` does not match one).
   */
  function LazyClose(s: string, j: nat): (r: Option<nat>)
    requires 2 <= j
    ensures r.Some? ==> j <= r.value < |s| && s[r.value] == '$'
    ensures r.Some? ==> forall k :: j - 1 <= k < r.value ==> s[k] != '\n'
    ensures r.Some? ==> r.value + 1 == |s| || s[r.value + 1] != '$'
    ensures r.Some? ==> forall k :: j <= k < r.value ==> !(s[k] == '$' && (k + 1 == |s| || s[k + 1] != '$'))
    decreases |s| - j
  {
    if j >= |s| || s[j - 1] == '\n' then None
    else if s[j] == '$' && (j + 1 == |s| || s[j + 1] != '$') then Some(j)
    else LazyClose(s, j + 1)
  }

  /** `to_double_dollar_math`: every match, left to right, becomes `$$` group `$$`. */
  function ConvertMath(s: string): string
    decreases |s|
  {
    if s == [] then []
    else if s[0] == '$' && |s| >= 2 && s[1] != '$' && LazyClose(s, 2).Some? then
      var j := LazyClose(s, 2).value;
      "$$" + s[1..j] + "$$" + ConvertMath(s[j + 1..])
    else [s[0]] + ConvertMath(s[1..])
  }

  /** Text without a dollar sign is unchanged. */
  lemma {:induction false} ConvertMathNoDollar(s: string)
    requires '$' !in s
    ensures ConvertMath(s) == s
  {
    if s != [] {
      ConvertMathNoDollar(s[1..]);
    }
  }

  /**
   * An isolated `$x$` becomes `$$x$$`: the text before it has no `$`, `x` is
   * not empty and has neither `$` nor a newline, and no `$` follows it.
   */
  lemma {:induction false} ConvertMathIsolated(a: string, x: string, b: string)
    requires '$' !in a && x != [] && '$' !in x && '\n' !in x
    requires b == [] || b[0] != '$'
    ensures ConvertMath(a + "$" + x + "$" + b) == a + "$$" + x + "$$" + ConvertMath(b)
  {
    ConvertMathIsolatedHere(x, b);
    ConvertMathCopies(a, "$" + x + "$" + b);
    ConcatAssoc5(a, "$", x, "$", b);
    ConcatAssoc5(a, "$$", x, "$$", ConvertMath(b));
  }

  /** Text without `$` in front of `m` is copied as is. */
  lemma {:induction false} ConvertMathCopies(a: string, m: string)
    requires '$' !in a
    ensures ConvertMath(a + m) == a + ConvertMath(m)
  {
    if a != [] {
      assert a + m == [a[0]] + (a[1..] + m);
      ConvertMathPlain(a[0], a[1..] + m);
      ConvertMathCopies(a[1..], m);
      assert [a[0]] + (a[1..] + ConvertMath(m)) == a + ConvertMath(m);
    } else {
      assert a + m == m;
    }
  }

  /** A character other than `$` is copied. */
  lemma ConvertMathPlain(c: char, t: string)
    requires c != '$'
    ensures ConvertMath([c] + t) == [c] + ConvertMath(t)
  {
    assert ([c] + t)[1..] == t;
  }

  lemma ConvertMathIsolatedHere(x: string, b: string)
    requires x != [] && '$' !in x && '\n' !in x
    requires b == [] || b[0] != '$'
    ensures ConvertMath("$" + x + "$" + b) == "$$" + x + "$$" + ConvertMath(b)
  {
    var s := "$" + x + "$" + b;
    var j := |x| + 1;
    assert s[1] == x[0];
    LazyCloseAt(s, 2, j);
    assert s[1..j] == x;
    assert s[j + 1..] == b;
  }

  lemma {:induction false} LazyCloseAt(s: string, j: nat, c: nat)
    requires 2 <= j <= c < |s| && s[c] == '$' && (c + 1 == |s| || s[c + 1] != '$')
    requires forall k :: j - 1 <= k < c ==> s[k] != '\n' && s[k] != '$'
    ensures LazyClose(s, j) == Some(c)
    decreases c - j
  {
    if j < c {
      LazyCloseAt(s, j + 1, c);
    }
  }

  /** Against the comment that `$$...$$` is left as is, the pattern turns `$$x$$` into `$$$x$$$`. */
  lemma ConvertMathEscalates()
    ensures ConvertMath("$$x$$") == "$$$x$$$"
  {
    var s := "$$x$$";
    assert s[1..] == "$x$$";
    var t := "$x$$";
    assert LazyClose(t, 2) == Some(3) by {
      assert t[2] == '$' && t[3] == '$';
      assert LazyClose(t, 3) == Some(3);
    }
    assert t[1..3] == "x$" && t[4..] == "";
  }

  // ---------------------------------------------------------------
  // Composite transforms
  // ---------------------------------------------------------------

  /** `clean_option_text` */
  function CleanOptionText(s: string, stripPrefixes: bool, convertMath: bool): string {
    var t := if stripPrefixes then StripOptionPrefix(s) else s;
    if convertMath then ConvertMath(t) else t
  }

  /** `clean_general_text` */
  function CleanGeneralText(s: string, convertMath: bool): string {
    if convertMath then ConvertMath(s) else s
  }

  /** With both switches off, option text passes through untouched; with stripping alone, exactly one label is removed. */
  lemma CleanOptionTextSwitches(s: string)
    ensures CleanOptionText(s, false, false) == s
    ensures CleanGeneralText(s, false) == s
    ensures CleanOptionText(s, true, false) == StripOptionPrefix(s)
    ensures CleanOptionText(s, true, false) == s || exists n :: 0 < n <= |s| && CleanOptionText(s, true, false) == s[n..] && (exists a, b :: LabelShape(s, a, b, n))
  {
    if PrefixMatchLen(s).Some? {
      PrefixMatchSound(s);
    }
  }

  // ---------------------------------------------------------------
  // HTML paragraph wrapping
  // ---------------------------------------------------------------

  /** `u.startswith(c)` for a one-character prefix. */
  predicate StartsWithChar(u: string, c: char) {
    u != [] && u[0] == c
  }

  /** `wrap_p`: the stripped text, inside `<p>...</p>` unless it already starts with a tag. */
  function WrapP(s: string): string {
    var t := Strip(s);
    if t == [] then ""
    else if StartsWithChar(LStrip(t), '<') then t
    else "<p>" + t + "</p>"
  }

  /**
   * `wrap_p` yields nothing exactly for blank text; otherwise markup that
   * starts with `<`, has no surrounding whitespace, and is the stripped text
   * itself or that text as one paragraph.
   */
  lemma WrapPSpec(s: string)
    ensures WrapP(s) == [] <==> AllSpace(s)
    ensures WrapP(s) != [] ==> WrapP(s)[0] == '<' && Strip(WrapP(s)) == WrapP(s)
    ensures WrapP(s) == Strip(s) || WrapP(s) == "<p>" + Strip(s) + "</p>"
  {
    var t := Strip(s);
    StripEmptyIff(s);
    if t == [] {
      assert WrapP(s) == [];
    } else {
      assert !IsSpace(t[0]);
      assert LStrip(t) == t;
      if t[0] == '<' {
        assert WrapP(s) == t;
        StripIdempotent(s);
      } else {
        var r := "<p>" + t + "</p>";
        assert WrapP(s) == r;
        assert r[0] == '<' && r[|r| - 1] == '>';
        StripNoEdgeSpace(r);
      }
    }
  }

  lemma WrapPIdempotent(s: string)
    ensures WrapP(WrapP(s)) == WrapP(s)
  {
    var r := WrapP(s);
    WrapPSpec(s);
    if r != [] {
      assert !IsSpace(r[0]);
      assert !AllSpace(r);
      assert LStrip(r) == r;
    } else {
      StripEmptyIff(r);
    }
  }
}
