/**
 * The labelling helpers of the catalog registration form: URL-style slugs,
 * the numeric prefixes of catalog labels, the language suffix of the
 * file-name prefix, and the comma-separated keyword field.
 */
module CatalogText {
  import opened PyStr

  // ---------------------------------------------------------------
  // slugify
  // ---------------------------------------------------------------

  /** The characters `[a-z0-9]` a slug keeps. */
  predicate IsSlugChar(c: char) {
    'a' <= c <= 'z' || '0' <= c <= '9'
  }

  /** `s` without its leading run of characters outside `[a-z0-9]`. */
  function SkipRun(s: string): (r: string)
    ensures |r| <= |s| && r == s[|s| - |r|..]
    ensures r == [] || IsSlugChar(r[0])
    ensures s != [] && !IsSlugChar(s[0]) ==> |r| < |s|
  {
    if s == [] || IsSlugChar(s[0]) then s else SkipRun(s[1..])
  }

  /** Only slug characters and dashes, and never two dashes in a row. */
  predicate Dashed(s: string) {
    && (forall i :: 0 <= i < |s| ==> IsSlugChar(s[i]) || s[i] == '-')
    && (forall i :: 0 <= i < |s| - 1 ==> s[i] == '-' ==> s[i + 1] != '-')
  }

  /** `re.sub(r"[^a-z0-9]+", "-", s)`: each maximal run of other characters becomes one `-`. */
  function DashRuns(s: string): (r: string)
    ensures Dashed(r)
    ensures s != [] && IsSlugChar(s[0]) ==> r != [] && r[0] == s[0]
    decreases |s|
  {
    if s == [] then []
    else if IsSlugChar(s[0]) then
      var rest := DashRuns(s[1..]);
      DashedCons(s[0], rest);
      [s[0]] + rest
    else
      var rest := DashRuns(SkipRun(s));
      DashedCons('-', rest);
      "-" + rest
  }

  lemma DashedCons(c: char, r: string)
    requires Dashed(r) && (IsSlugChar(c) || c == '-')
    requires c == '-' ==> r == [] || r[0] != '-'
    ensures Dashed([c] + r)
  {
    var s := [c] + r;
    forall i | 0 <= i < |s| - 1 && s[i] == '-' ensures s[i + 1] != '-' {
      if i > 0 {
        assert s[i] == r[i - 1] && s[i + 1] == r[i];
      }
    }
    forall i | 0 <= i < |s| ensures IsSlugChar(s[i]) || s[i] == '-' {
      if i > 0 {
        assert s[i] == r[i - 1];
      }
    }
  }

  /** `s.lstrip("-")` */
  function TrimLeft(s: string): (r: string)
    ensures |r| <= |s| && r == s[|s| - |r|..]
    ensures r == [] || r[0] != '-'
    ensures forall i :: 0 <= i < |s| - |r| ==> s[i] == '-'
  {
    if s == [] || s[0] != '-' then s else TrimLeft(s[1..])
  }

  /** `s.rstrip("-")` */
  function TrimRight(s: string): (r: string)
    ensures |r| <= |s| && r == s[..|r|]
    ensures r == [] || r[|r| - 1] != '-'
    ensures forall i :: |r| <= i < |s| ==> s[i] == '-'
  {
    if s == [] || s[|s| - 1] != '-' then s else TrimRight(s[..|s| - 1])
  }

  /** `s.strip("-")` */
  function TrimDashes(s: string): string {
    TrimRight(TrimLeft(s))
  }

  const UNKNOWN := "unknown"

  /** `slugify` */
  function Slugify(text: string): string {
    var core := TrimDashes(DashRuns(Lower(Strip(text))));
    if core == "" then UNKNOWN else core
  }

  /** What a slug looks like: non-empty, `[a-z0-9-]` only, no dash at either end, no `--`. */
  predicate SlugShape(s: string) {
    s != [] && Dashed(s) && s[0] != '-' && s[|s| - 1] != '-'
  }

  lemma DashedSlice(s: string, a: nat, b: nat)
    requires Dashed(s) && a <= b <= |s|
    ensures Dashed(s[a..b])
  {
    var t := s[a..b];
    forall i | 0 <= i < |t| ensures IsSlugChar(t[i]) || t[i] == '-' {
      assert t[i] == s[a + i];
    }
    forall i | 0 <= i < |t| - 1 && t[i] == '-' ensures t[i + 1] != '-' {
      assert t[i] == s[a + i] && t[i + 1] == s[a + i + 1];
    }
  }

  /** Trimming the dashes off a dashed string leaves a slug or nothing. */
  lemma TrimShape(d: string)
    requires Dashed(d)
    ensures TrimDashes(d) == "" || SlugShape(TrimDashes(d))
  {
    var l := TrimLeft(d);
    DashedSlice(d, |d| - |l|, |d|);
    var r := TrimRight(l);
    DashedSlice(l, 0, |r|);
    if r != "" {
      assert r[0] == l[0];
    }
  }

  lemma UnknownShape()
    ensures SlugShape(UNKNOWN)
  {
    var u := UNKNOWN;
    assert u[0] == 'u' && u[1] == 'n' && u[2] == 'k' && u[3] == 'n';
    assert u[4] == 'o' && u[5] == 'w' && u[6] == 'n';
  }

  /** Every slug has the shape of one. */
  lemma SlugifyShape(text: string)
    ensures SlugShape(Slugify(text))
  {
    TrimShape(DashRuns(Lower(Strip(text))));
    UnknownShape();
  }

  /** The letters and digits of `s`, in order. */
  function SlugChars(s: string): string {
    if s == [] then [] else (if IsSlugChar(s[0]) then [s[0]] else []) + SlugChars(s[1..])
  }

  lemma {:induction false} SlugCharsAppend(a: string, b: string)
    ensures SlugChars(a + b) == SlugChars(a) + SlugChars(b)
  {
    if a != [] {
      assert (a + b)[1..] == a[1..] + b;
      SlugCharsAppend(a[1..], b);
    } else {
      assert a + b == b;
    }
  }

  lemma {:induction false} SlugCharsNone(s: string)
    requires forall i :: 0 <= i < |s| ==> !IsSlugChar(s[i])
    ensures SlugChars(s) == []
  {
    if s != [] {
      SlugCharsNone(s[1..]);
    }
  }

  /** Cutting `s` at `a` and `b` loses only the slug characters outside the cut. */
  lemma SlugCharsCut(s: string, a: nat, b: nat)
    requires a <= b <= |s|
    requires forall i :: 0 <= i < a ==> !IsSlugChar(s[i])
    requires forall i :: b <= i < |s| ==> !IsSlugChar(s[i])
    ensures SlugChars(s[a..b]) == SlugChars(s)
  {
    var p, m, q := s[..a], s[a..b], s[b..];
    assert forall i :: 0 <= i < |q| ==> q[i] == s[b + i];
    SlugCharsNone(p);
    SlugCharsNone(q);
    SlugCharsThree(p, m, q);
    CutThree(s, a, b);
  }

  lemma SlugCharsThree(p: string, m: string, q: string)
    requires SlugChars(p) == [] && SlugChars(q) == []
    ensures SlugChars(p + m + q) == SlugChars(m)
  {
    SlugCharsAppend(p, m);
    SlugCharsAppend(p + m, q);
  }

  lemma {:induction false} DashRunsChars(s: string)
    ensures SlugChars(DashRuns(s)) == SlugChars(s)
    decreases |s|
  {
    if s != [] {
      if IsSlugChar(s[0]) {
        DashRunsChars(s[1..]);
        assert DashRuns(s) == [s[0]] + DashRuns(s[1..]);
        SlugCharsAppend([s[0]], DashRuns(s[1..]));
      } else {
        var t := SkipRun(s);
        DashRunsChars(t);
        assert DashRuns(s) == "-" + DashRuns(t);
        SlugCharsAppend("-", DashRuns(t));
        assert SlugChars("-") == [];
        SkipRunSkipped(s);
        SlugCharsCut(s, |s| - |t|, |s|);
        assert s[|s| - |t|..|s|] == t;
      }
    }
  }

  lemma {:induction false} SkipRunSkipped(s: string)
    ensures forall i :: 0 <= i < |s| - |SkipRun(s)| ==> !IsSlugChar(s[i])
  {
    if s == [] || IsSlugChar(s[0]) {
      assert SkipRun(s) == s;
    } else {
      var t := s[1..];
      SkipRunSkipped(t);
      assert SkipRun(s) == SkipRun(t);
      forall i | 0 <= i < |s| - |SkipRun(s)| ensures !IsSlugChar(s[i]) {
        if i > 0 {
          assert s[i] == t[i - 1];
        }
      }
    }
  }

  lemma TrimDashesChars(s: string)
    ensures SlugChars(TrimDashes(s)) == SlugChars(s)
  {
    var l := TrimLeft(s);
    SlugCharsCut(s, |s| - |l|, |s|);
    assert l == s[|s| - |l|..|s|];
    var r := TrimRight(l);
    SlugCharsCut(l, 0, |r|);
    assert r == l[0..|r|];
  }

  lemma StripChars(s: string)
    ensures SlugChars(Lower(Strip(s))) == SlugChars(Lower(s))
  {
    var a, b := StripBounds(s);
    var low := Lower(s);
    LowerSlice(s, a, b);
    forall i | 0 <= i < a ensures !IsSlugChar(low[i]) {
      SpaceNotSlug(s[i]);
    }
    forall i | b <= i < |s| ensures !IsSlugChar(low[i]) {
      SpaceNotSlug(s[i]);
    }
    SlugCharsCut(low, a, b);
  }

  lemma SpaceNotSlug(c: char)
    requires IsSpace(c)
    ensures !IsSlugChar(LowerChar(c))
  {
  }

  /** `strip` cuts whitespace off both ends. */
  lemma StripBounds(s: string) returns (a: nat, b: nat)
    ensures a <= b <= |s| && Strip(s) == s[a..b]
    ensures forall i :: 0 <= i < a ==> IsSpace(s[i])
    ensures forall i :: b <= i < |s| ==> IsSpace(s[i])
  {
    var l := LStrip(s);
    var r := RStrip(l);
    a, b := |s| - |l|, |s| - |l| + |r|;
    assert l == s[a..];
    assert r == l[..|r|];
    assert r == s[a..b];
    forall i | b <= i < |s| ensures IsSpace(s[i]) {
      assert s[i] == l[i - a];
    }
  }

  lemma LowerSlice(s: string, a: nat, b: nat)
    requires a <= b <= |s|
    ensures Lower(s[a..b]) == Lower(s)[a..b]
  {
    var t, l := s[a..b], Lower(s);
    var x, y := Lower(t), l[a..b];
    assert |x| == |y| == b - a;
    forall i | 0 <= i < b - a ensures x[i] == y[i] {
      assert t[i] == s[a + i];
      assert y[i] == l[a + i];
    }
  }

  /** Whether `s` holds an ASCII letter or digit. */
  predicate HasAlnum(s: string) {
    exists i :: 0 <= i < |s| && IsAsciiAlnum(s[i])
  }

  lemma {:induction false} SlugCharsEmpty(s: string)
    ensures SlugChars(s) == [] <==> forall i :: 0 <= i < |s| ==> !IsSlugChar(s[i])
  {
    if s != [] {
      SlugCharsEmpty(s[1..]);
      assert forall i :: 1 <= i < |s| ==> s[i] == s[1..][i - 1];
    }
  }

  /**
   * A slug keeps exactly the input's letters (lower-cased) and digits, in
   * order; an input without any becomes `unknown`.
   */
  lemma SlugifyKeepsAlnums(text: string)
    ensures !HasAlnum(text) ==> Slugify(text) == UNKNOWN
    ensures HasAlnum(text) ==> SlugChars(Slugify(text)) == SlugChars(Lower(text)) != []
  {
    var core := TrimDashes(DashRuns(Lower(Strip(text))));
    CoreChars(text);
    AlnumChars(text);
    SlugCharsEmpty(core);
  }

  /** The slug characters survive stripping, dashing and trimming. */
  lemma CoreChars(text: string)
    ensures SlugChars(TrimDashes(DashRuns(Lower(Strip(text))))) == SlugChars(Lower(text))
  {
    var low := Lower(Strip(text));
    var d := DashRuns(low);
    StripChars(text);
    DashRunsChars(low);
    TrimDashesChars(d);
  }

  /** Lower-casing turns exactly the ASCII letters and digits into slug characters. */
  lemma AlnumChars(text: string)
    ensures HasAlnum(text) <==> SlugChars(Lower(text)) != []
  {
    var lt := Lower(text);
    SlugCharsEmpty(lt);
    if HasAlnum(text) {
      var i :| 0 <= i < |text| && IsAsciiAlnum(text[i]);
      assert IsSlugChar(lt[i]);
    } else {
      forall i | 0 <= i < |lt| ensures !IsSlugChar(lt[i]) {
        assert !IsAsciiAlnum(text[i]);
      }
    }
  }

  lemma {:induction false} DashRunsFixed(s: string)
    requires Dashed(s) && (s == [] || s[|s| - 1] != '-')
    ensures DashRuns(s) == s
    decreases |s|
  {
    if s != [] {
      DashedSlice(s, 1, |s|);
      if IsSlugChar(s[0]) {
        DashRunsFixed(s[1..]);
      } else {
        assert |s| > 1 && s[1] != '-';
        assert IsSlugChar(s[1]);
        assert SkipRun(s[1..]) == s[1..];
        assert SkipRun(s) == s[1..];
        DashRunsFixed(s[1..]);
        assert s == "-" + s[1..];
      }
    }
  }

  /** A string already shaped like a slug is its own slug. */
  lemma SlugFixed(s: string)
    requires SlugShape(s)
    ensures Slugify(s) == s
  {
    assert !IsSpace(s[0]) && !IsSpace(s[|s| - 1]);
    StripNoEdgeSpace(s);
    assert Lower(s) == s;
    DashRunsFixed(s);
  }

  /** `slugify` is idempotent. */
  lemma SlugifyIdempotent(text: string)
    ensures Slugify(Slugify(text)) == Slugify(text)
  {
    SlugifyShape(text);
    SlugFixed(Slugify(text));
  }

  // ---------------------------------------------------------------
  // strip_numeric_prefix
  // ---------------------------------------------------------------

  /** The position of the first `c` in `s`, or `|s|` when there is none. */
  function FirstIndex(s: string, c: char): (k: nat)
    ensures k <= |s| && c !in s[..k] && (k < |s| ==> s[k] == c)
  {
    if s == [] then 0
    else if s[0] == c then 0
    else
      var k := FirstIndex(s[1..], c);
      assert s[..k + 1] == [s[0]] + s[1..][..k];
      k + 1
  }

  /** `s.replace(".", "")` */
  function DropDots(s: string): (r: string)
    ensures '.' !in r
  {
    if s == [] then "" else (if s[0] == '.' then "" else [s[0]]) + DropDots(s[1..])
  }

  /** A name's first token counts as a number when, without its dots, it is a non-empty digit string. */
  predicate NumericToken(t: string) {
    var d := DropDots(t);
    d != "" && AllDigits(d)
  }

  /**
   * `strip_numeric_prefix`: `name.split(" ", 1)` cuts at the first space;
   * a numeric first token is dropped together with that space.
   */
  function StripNumericPrefix(name: string): (r: string)
    ensures r != name ==>
      var k := |name| - |r| - 1;
      && 0 <= k && name == name[..k] + " " + r
      && ' ' !in name[..k] && NumericToken(name[..k])
  {
    var k := FirstIndex(name, ' ');
    if k < |name| && NumericToken(name[..k]) then
      assert name == name[..k] + " " + name[k + 1..];
      name[k + 1..]
    else name
  }

  /** Conversely, a numeric token and a space in front of the name are always dropped. */
  lemma StripNumericPrefixDrops(token: string, rest: string)
    requires ' ' !in token && NumericToken(token)
    ensures StripNumericPrefix(token + " " + rest) == rest
  {
    var name := token + " " + rest;
    FirstIndexAt(name, ' ', |token|);
    assert name[..|token|] == token;
    assert name[|token| + 1..] == rest;
  }

  /** A first token that is not a number keeps the name as it is. */
  lemma StripNumericPrefixKept(token: string, rest: string)
    requires ' ' !in token && !NumericToken(token)
    ensures StripNumericPrefix(token + " " + rest) == token + " " + rest
  {
    var name := token + " " + rest;
    FirstIndexAt(name, ' ', |token|);
    assert name[..|token|] == token;
  }

  lemma FirstIndexAt(s: string, c: char, k: nat)
    requires k < |s| && s[k] == c && c !in s[..k]
    ensures FirstIndex(s, c) == k
  {

  }

  /** The catalog's own labels lose their number. */
  lemma StripNumericPrefixCatalog()
    ensures StripNumericPrefix("05 Applied Hydrogeology") == "Applied Hydrogeology"
  {
    var name := "05 Applied Hydrogeology";
    assert name[..2] == "05";
    FirstIndexAt(name, ' ', 2);
    PlainNumber();
    assert name[3..] == "Applied Hydrogeology";
  }

  lemma PlainNumber()
    ensures NumericToken("05")
  {
    assert DropDots("05") == "05";
  }

  /** Dots in the number are allowed. */
  lemma StripNumericPrefixDotted()
    ensures StripNumericPrefix("03.2 Flow") == "Flow"
  {
    var name := "03.2 Flow";
    assert name[..4] == "03.2";
    FirstIndexAt(name, ' ', 4);
    DottedNumber();
    assert name[5..] == "Flow";
  }

  lemma DottedNumber()
    ensures NumericToken("03.2")
  {
    assert DropDots("03.2") == "032";
  }

  /** A first word that is not a number, or only dots, stays. */
  lemma StripNumericPrefixKeeps()
    ensures StripNumericPrefix("Water Cycle") == "Water Cycle"
    ensures StripNumericPrefix(". Water") == ". Water"
  {
    FirstIndexAt("Water Cycle", ' ', 5);
    assert "Water Cycle"[..5] == "Water";
    FirstIndexAt(". Water", ' ', 1);
    assert ". Water"[..1] == ".";
    NotNumbers();
  }

  lemma NotNumbers()
    ensures !NumericToken("Water") && !NumericToken(".")
  {
    assert DropDots("Water")[0] == 'W';
    assert DropDots(".") == "";
  }

  // ---------------------------------------------------------------
  // apply_language_to_prefix
  // ---------------------------------------------------------------

  /** `LANGUAGE_OPTIONS`: the form's languages and their codes. */
  const LANGUAGE_OPTIONS: seq<(string, string)> := [
    ("English", "en"), ("German", "de"), ("French", "fr"), ("Italian", "it"),
    ("Swedish", "sv"), ("Hindi", "hi"), ("Polish", "pl"), ("Dutch", "nl")
  ]

  /** `set(LANGUAGE_OPTIONS.values())` */
  function LanguageCodes(): set<string> {
    set i | 0 <= i < |LANGUAGE_OPTIONS| :: LANGUAGE_OPTIONS[i].1
  }

  lemma LanguageCodesAre()
    ensures LanguageCodes() == {"en", "de", "fr", "it", "sv", "hi", "pl", "nl"}
  {
    var codes := {"en", "de", "fr", "it", "sv", "hi", "pl", "nl"};
    forall c | c in codes ensures c in LanguageCodes() {
      if c == "en" { assert LANGUAGE_OPTIONS[0].1 == c; }
      else if c == "de" { assert LANGUAGE_OPTIONS[1].1 == c; }
      else if c == "fr" { assert LANGUAGE_OPTIONS[2].1 == c; }
      else if c == "it" { assert LANGUAGE_OPTIONS[3].1 == c; }
      else if c == "sv" { assert LANGUAGE_OPTIONS[4].1 == c; }
      else if c == "hi" { assert LANGUAGE_OPTIONS[5].1 == c; }
      else if c == "pl" { assert LANGUAGE_OPTIONS[6].1 == c; }
      else { assert LANGUAGE_OPTIONS[7].1 == c; }
    }
  }

  /** No language code holds an underscore. */
  lemma CodesPlain(c: string)
    requires c in LanguageCodes()
    ensures '_' !in c
  {
    LanguageCodesAre();
  }

  /** The last `_`-separated part of `s`. */
  function LastPart(s: string): string {
    var parts := SplitOn(s, '_');
    parts[|parts| - 1]
  }

  /**
   * `apply_language_to_prefix`. (`prefix.split("_")` is never empty, so the
   * source's `parts and` test always holds.)
   */
  function ApplyLanguage(prefix: string, lang: string): string {
    var parts := SplitOn(prefix, '_');
    var existing := parts[|parts| - 1];
    if existing in LanguageCodes() then
      var core := if |parts| > 1 then Join("_", parts[..|parts| - 1]) else "";
      if existing == lang then prefix
      else if core != "" then core + "_" + existing + "_" + lang
      else existing + "_" + lang
    else prefix + "_" + lang
  }

  lemma LastPartAfter(a: string, b: string)
    requires '_' !in b
    ensures LastPart(a + "_" + b) == b
  {
    SplitOnAppend(a, b, '_');
    SplitOnFree(b, '_');
  }

  /** For a known code, the result's last part is that code. */
  lemma ApplyLanguageEndsWithCode(prefix: string, lang: string)
    requires lang in LanguageCodes()
    ensures LastPart(ApplyLanguage(prefix, lang)) == lang
  {
    CodesPlain(lang);
    var parts := SplitOn(prefix, '_');
    var existing := parts[|parts| - 1];
    if existing in LanguageCodes() {
      var core := if |parts| > 1 then Join("_", parts[..|parts| - 1]) else "";
      if existing == lang {
      } else if core != "" {
        LastPartAfter(core + "_" + existing, lang);
      } else {
        LastPartAfter(existing, lang);
      }
    } else {
      LastPartAfter(prefix, lang);
    }
  }

  /** A prefix that already ends in the code is kept as it is. */
  lemma ApplyLanguageKeeps(prefix: string, lang: string)
    requires LastPart(prefix) == lang && lang in LanguageCodes()
    ensures ApplyLanguage(prefix, lang) == prefix
  {
  }

  /** Applying the same known code twice changes nothing more. */
  lemma ApplyLanguageIdempotent(prefix: string, lang: string)
    requires lang in LanguageCodes()
    ensures ApplyLanguage(ApplyLanguage(prefix, lang), lang) == ApplyLanguage(prefix, lang)
  {
    ApplyLanguageEndsWithCode(prefix, lang);
    ApplyLanguageKeeps(ApplyLanguage(prefix, lang), lang);
  }

  /**
   * The code is appended after an underscore when the prefix's last part is
   * not a known code, and also when it is another code with something in
   * front of it.
   */
  lemma ApplyLanguageAppends(prefix: string, lang: string)
    requires LastPart(prefix) != lang
    requires LastPart(prefix) in LanguageCodes() ==> |SplitOn(prefix, '_')| > 1 && Join("_", SplitOn(prefix, '_')[..|SplitOn(prefix, '_')| - 1]) != ""
    ensures ApplyLanguage(prefix, lang) == prefix + "_" + lang
  {
    var parts := SplitOn(prefix, '_');
    var existing := parts[|parts| - 1];
    assert LastPart(prefix) == existing;
    if existing in LanguageCodes() {
      var core := if |parts| > 1 then Join("_", parts[..|parts| - 1]) else "";
      assert core != "" && existing != lang;
      PrefixAtLast(prefix);
    }
  }

  /** A prefix of several parts is its core, an underscore and its last part. */
  lemma PrefixAtLast(prefix: string)
    requires |SplitOn(prefix, '_')| > 1
    ensures var parts := SplitOn(prefix, '_');
      prefix == Join("_", parts[..|parts| - 1]) + "_" + LastPart(prefix)
  {
    var parts := SplitOn(prefix, '_');
    var n := |parts|;
    JoinSplitOn(prefix, '_');
    assert parts == parts[..n - 1] + [parts[n - 1]];
    JoinSnoc("_", parts[..n - 1], parts[n - 1]);
  }

  /** A bare code gains the new one after an underscore. */
  lemma ApplyLanguageBareCode()
    ensures ApplyLanguage("en", "fr") == "en_fr"
  {
    LanguageCodesAre();
    SplitOnFree("en", '_');
  }

  /** An empty part in front of the code is dropped: `_en` becomes `en_fr`. */
  lemma ApplyLanguageEmptyCore()
    ensures ApplyLanguage("_en", "fr") == "en_fr"
  {
    LanguageCodesAre();
    SplitOnFree("en", '_');
    assert "_en"[1..] == "en";
    assert SplitOn("_en", '_') == ["", "en"];
    assert Join("_", [""]) == "";
  }

  /** A prefix without a code gains one. */
  lemma ApplyLanguagePlain()
    ensures ApplyLanguage("hydro", "de") == "hydro_de"
  {
    LanguageCodesAre();
    SplitOnFree("hydro", '_');
  }

  // ---------------------------------------------------------------
  // The keyword field
  // ---------------------------------------------------------------

  /** The stripped, non-blank parts, in order. */
  function KeepStripped(parts: seq<string>): seq<string>
  {
    if parts == [] then []
    else
      var k := Strip(parts[0]);
      if k != "" then [k] + KeepStripped(parts[1..]) else KeepStripped(parts[1..])
  }

  /** A keyword as the form keeps it: non-blank, stripped, no comma. */
  predicate CleanKeyword(k: string) {
    k != "" && Strip(k) == k && ',' !in k
  }

  predicate CleanKeywords(ks: seq<string>) {
    forall i :: 0 <= i < |ks| ==> CleanKeyword(ks[i])
  }

  /** `[k.strip() for k in keywords_text.split(",") if k.strip()]` */
  function KeywordsOf(text: string): seq<string>
  {
    KeepStripped(SplitOn(text, ','))
  }

  /** Every keyword is non-blank, stripped and free of commas. */
  lemma KeywordsClean(text: string)
    ensures CleanKeywords(KeywordsOf(text))
  {
    SplitOnParts(text, ',');
    KeepClean(SplitOn(text, ','));
  }

  lemma {:induction false} KeepClean(parts: seq<string>)
    requires forall i :: 0 <= i < |parts| ==> ',' !in parts[i]
    ensures CleanKeywords(KeepStripped(parts))
  {
    if parts != [] {
      var tail := parts[1..];
      assert forall i :: 0 <= i < |tail| ==> tail[i] == parts[i + 1];
      KeepClean(tail);
      var k := Strip(parts[0]);
      if k != "" {
        StripIdempotent(parts[0]);
        StripNotIn(parts[0], ',');
        CleanCons(k, KeepStripped(tail));
      }
    }
  }

  lemma CleanCons(k: string, ks: seq<string>)
    requires CleanKeyword(k) && CleanKeywords(ks)
    ensures CleanKeywords([k] + ks)
  {
    forall i | 0 <= i < |[k] + ks| ensures CleanKeyword(([k] + ks)[i]) {
      if i > 0 {
        assert ([k] + ks)[i] == ks[i - 1];
      }
    }
  }

  /** Keywords written as `a, b, c` read back as the same keywords. */
  lemma KeywordsRoundTrip(ks: seq<string>)
    requires CleanKeywords(ks)
    ensures KeywordsOf(Join(", ", ks)) == ks
  {
    if ks == [] {
      assert SplitOn("", ',') == [""];
    } else {
      KeywordsPadded("", ks);
      assert "" + Join(", ", ks) == Join(", ", ks);
    }
  }

  /** The round trip after the text following a comma, which starts with a space. */
  lemma {:induction false} KeywordsPadded(p: string, ks: seq<string>)
    requires p == "" || p == " "
    requires ks != [] && CleanKeywords(ks)
    ensures KeepStripped(SplitOn(p + Join(", ", ks), ',')) == ks
    decreases ks
  {
    HeadClean(p, ks);
    if |ks| == 1 {
      KeywordsSingle(p, ks);
    } else {
      KeywordsPadded(" ", ks[1..]);
      JoinFirst(p, ks);
      KeywordsStep(p + ks[0], " " + Join(", ", ks[1..]), ks);
    }
  }

  /** The first keyword, after an optional space, strips to itself; the rest stay clean. */
  lemma HeadClean(p: string, ks: seq<string>)
    requires p == "" || p == " "
    requires ks != [] && CleanKeywords(ks)
    ensures Strip(p + ks[0]) == ks[0] != "" && ',' !in p + ks[0]
    ensures CleanKeywords(ks[1..])
  {
    var k, rest := ks[0], ks[1..];
    assert CleanKeyword(k);
    StripPadded(p, k);
    assert forall i :: 0 <= i < |rest| ==> rest[i] == ks[i + 1];
  }

  /** The first keyword, its comma, and the space that starts the rest. */
  lemma JoinFirst(p: string, ks: seq<string>)
    requires |ks| > 1
    ensures p + Join(", ", ks) == (p + ks[0]) + [','] + (" " + Join(", ", ks[1..]))
  {
    var j := Join(", ", ks[1..]);
    assert Join(", ", ks) == ks[0] + ", " + j;
    assert ", " + j == [','] + (" " + j);
  }

  lemma KeywordsSingle(p: string, ks: seq<string>)
    requires |ks| == 1 && Strip(p + ks[0]) == ks[0] != "" && ',' !in p + ks[0]
    ensures KeepStripped(SplitOn(p + Join(", ", ks), ',')) == ks
  {
    var x := p + ks[0];
    assert p + Join(", ", ks) == x;
    SplitOnFree(x, ',');
    KeepCons(x, []);
  }

  lemma KeywordsStep(x: string, tail: string, ks: seq<string>)
    requires |ks| > 1 && Strip(x) == ks[0] != "" && ',' !in x
    requires KeepStripped(SplitOn(tail, ',')) == ks[1..]
    ensures KeepStripped(SplitOn(x + [','] + tail, ',')) == ks
  {
    SplitOnPrefix(x, tail, ',');
    KeepCons(x, SplitOn(tail, ','));
    HeadRest(ks);
  }

  lemma HeadRest<X>(xs: seq<X>)
    requires xs != []
    ensures [xs[0]] + xs[1..] == xs
  {
  }

  lemma KeepCons(x: string, rest: seq<string>)
    requires Strip(x) != ""
    ensures KeepStripped([x] + rest) == [Strip(x)] + KeepStripped(rest)
  {
    assert ([x] + rest)[1..] == rest;
  }

  lemma StripPadded(p: string, k: string)
    requires p == "" || p == " "
    requires CleanKeyword(k)
    ensures Strip(p + k) == k
  {
    assert !IsSpace(k[0]) && !IsSpace(k[|k| - 1]) by {
      assert k == Strip(k);
    }
    if p == " " {
      assert (p + k)[1..] == k;
      assert LStrip(p + k) == LStrip(k);
    } else {
      assert p + k == k;
    }
    assert LStrip(k) == k;
  }
}
