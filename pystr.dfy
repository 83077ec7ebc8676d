/**
 * The parts of Python's `str` behaviour the modelled code relies on:
 * `isspace` (also the class `\s` of a str regular expression), `strip`,
 * `lstrip`, `rstrip`, `split()`, `split(sep)`, `sep.join`, `replace`,
 * and decimal rendering of non-negative integers (`str(n)`, `f"{n:03d}"`).
 */
module PyStr {

  /** Python's `str.isspace`: the Unicode whitespace characters. */
  predicate IsSpace(c: char) {
    || c == ' '
    || ('\t' <= c <= '\r')
    || ('\U{1C}' <= c <= '\U{1F}')
    || c == '\U{85}' || c == '\U{A0}' || c == '\U{1680}'
    || ('\U{2000}' <= c <= '\U{200A}')
    || c == '\U{2028}' || c == '\U{2029}' || c == '\U{202F}' || c == '\U{205F}' || c == '\U{3000}'
  }

  predicate NoSpace(s: string) {
    forall i :: 0 <= i < |s| ==> !IsSpace(s[i])
  }

  predicate AllSpace(s: string) {
    forall i :: 0 <= i < |s| ==> IsSpace(s[i])
  }

  predicate IsAsciiDigit(c: char) { '0' <= c <= '9' }

  predicate IsAsciiAlnum(c: char) { IsAsciiDigit(c) || 'a' <= c <= 'z' || 'A' <= c <= 'Z' }

  predicate AllDigits(s: string) {
    forall i :: 0 <= i < |s| ==> IsAsciiDigit(s[i])
  }

  /** `s.lstrip()` */
  function LStrip(s: string): (r: string)
    ensures |r| <= |s| && r == s[|s| - |r|..]
    ensures forall i :: 0 <= i < |s| - |r| ==> IsSpace(s[i])
    ensures r == [] || !IsSpace(r[0])
  {
    if s == [] || !IsSpace(s[0]) then s else LStrip(s[1..])
  }

  /** `s.rstrip()` */
  function RStrip(s: string): (r: string)
    ensures |r| <= |s| && r == s[..|r|]
    ensures forall i :: |r| <= i < |s| ==> IsSpace(s[i])
    ensures r == [] || !IsSpace(r[|r| - 1])
  {
    if s == [] || !IsSpace(s[|s| - 1]) then s else RStrip(s[..|s| - 1])
  }

  /** `s.strip()` */
  function Strip(s: string): (r: string)
    ensures r == [] || (!IsSpace(r[0]) && !IsSpace(r[|r| - 1]))
  {
    RStrip(LStrip(s))
  }

  /** `strip` removes exactly the whitespace at both ends: it is empty iff `s` is all whitespace. */
  lemma StripEmptyIff(s: string)
    ensures Strip(s) == [] <==> AllSpace(s)
  {
    var l := LStrip(s);
    if Strip(s) == [] {
      assert l == [];
    } else {
      var r := Strip(s);
      assert r[0] == l[0] == s[|s| - |l|];
    }
  }

  /** Text without whitespace at either end is a fixed point of `strip`. */
  lemma StripNoEdgeSpace(s: string)
    requires s == [] || (!IsSpace(s[0]) && !IsSpace(s[|s| - 1]))
    ensures Strip(s) == s
  {
  }

  lemma StripIdempotent(s: string)
    ensures Strip(Strip(s)) == Strip(s)
  {
    StripNoEdgeSpace(Strip(s));
  }

  /** A value missing from a sequence is missing from every slice of it. */
  lemma NotInSlice<T>(s: seq<T>, c: T, a: nat, b: nat)
    requires a <= b <= |s| && c !in s
    ensures c !in s[a..b]
  {
    forall k | 0 <= k < b - a ensures s[a..b][k] != c {
      assert s[a..b][k] == s[a + k];
    }
  }

  /** `strip` only removes characters. */
  lemma StripNotIn(s: string, c: char)
    requires c !in s
    ensures c !in Strip(s)
  {
    var l := LStrip(s);
    NotInSlice(s, c, |s| - |l|, |s|);
    NotInSlice(l, c, 0, |RStrip(l)|);
  }

  /** Length of the leading run of non-whitespace characters. */
  function WordEnd(s: string): (n: nat)
    ensures n <= |s| && NoSpace(s[..n]) && (n == |s| || IsSpace(s[n]))
  {
    if s == [] || IsSpace(s[0]) then 0
    else
      var m := WordEnd(s[1..]);
      assert s[..m + 1] == [s[0]] + s[1..][..m];
      m + 1
  }

  /** `s.split()`: the maximal runs of non-whitespace characters, in order. */
  function SplitWs(s: string): (words: seq<string>)
    ensures forall i :: 0 <= i < |words| ==> words[i] != [] && NoSpace(words[i])
    decreases |s|
  {
    var t := LStrip(s);
    if t == [] then []
    else
      var n := WordEnd(t);
      assert n != 0 by { assert !IsSpace(t[0]); }
      WordsCons(t[..n], SplitWs(t[n..]));
      [t[..n]] + SplitWs(t[n..])
  }

  lemma WordsCons(w: string, ws: seq<string>)
    requires w != [] && NoSpace(w)
    requires forall i :: 0 <= i < |ws| ==> ws[i] != [] && NoSpace(ws[i])
    ensures forall i :: 0 <= i < |[w] + ws| ==> ([w] + ws)[i] != [] && NoSpace(([w] + ws)[i])
  {
    forall i | 0 <= i < |[w] + ws| ensures ([w] + ws)[i] != [] && NoSpace(([w] + ws)[i]) {
      if i > 0 {
        assert ([w] + ws)[i] == ws[i - 1];
      }
    }
  }

  /** `sep.join(parts)` */
  function Join(sep: string, parts: seq<string>): string
  {
    if |parts| == 0 then ""
    else if |parts| == 1 then parts[0]
    else parts[0] + sep + Join(sep, parts[1..])
  }

  lemma JoinSnoc(sep: string, parts: seq<string>, x: string)
    requires |parts| >= 1
    ensures Join(sep, parts + [x]) == Join(sep, parts) + sep + x
  {
    if |parts| > 1 {
      assert (parts + [x])[1..] == parts[1..] + [x];
      JoinSnoc(sep, parts[1..], x);
    }
  }

  lemma {:induction false} JoinAppend(sep: string, a: seq<string>, b: seq<string>)
    requires |a| >= 1 && |b| >= 1
    ensures Join(sep, a + b) == Join(sep, a) + sep + Join(sep, b)
  {
    if |a| == 1 {
      assert [a[0]] + b == a + b;
    } else {
      assert (a + b)[1..] == a[1..] + b;
      JoinAppend(sep, a[1..], b);
    }
  }

  lemma JoinCons(sep: string, x: string, parts: seq<string>)
    requires |parts| >= 1
    ensures Join(sep, [x] + parts) == x + sep + Join(sep, parts)
  {
    assert ([x] + parts)[1..] == parts;
  }

  /** Words with no whitespace in them, the shape `split()` produces. */
  predicate Words(ws: seq<string>) {
    forall i :: 0 <= i < |ws| ==> ws[i] != [] && NoSpace(ws[i])
  }

  /** Words joined by single spaces: no whitespace at either end and never two whitespace characters in a row. */
  predicate Normalized(s: string) {
    && (s == [] || (!IsSpace(s[0]) && !IsSpace(s[|s| - 1])))
    && (forall i :: 0 <= i < |s| - 1 ==> !(IsSpace(s[i]) && IsSpace(s[i + 1])))
  }

  lemma {:induction false} JoinWordsNormalized(ws: seq<string>)
    requires Words(ws)
    ensures Normalized(Join(" ", ws))
  {
    if |ws| > 1 {
      JoinWordsNormalized(ws[1..]);
      var w, rest := ws[0], Join(" ", ws[1..]);
      var s := w + " " + rest;
      assert s == Join(" ", ws);
      assert rest != [] by { JoinWordsNonEmpty(ws[1..]); }
      forall i | 0 <= i < |s| - 1 ensures !(IsSpace(s[i]) && IsSpace(s[i + 1])) {
        if i < |w| - 1 {
          assert s[i] == w[i];
        } else if i == |w| - 1 {
          assert s[i] == w[i];
        } else if i == |w| {
          assert s[i + 1] == rest[0];
        } else {
          assert s[i] == rest[i - |w| - 1] && s[i + 1] == rest[i - |w|];
        }
      }
      assert s[|s| - 1] == rest[|rest| - 1];
    }
  }

  lemma {:induction false} JoinWordsNonEmpty(ws: seq<string>)
    requires Words(ws) && |ws| >= 1
    ensures Join(" ", ws) != [] && Join(" ", ws)[0] == ws[0][0]
  {
  }

  /** `split()` undoes joining words with single spaces. */
  lemma {:induction false} SplitJoinWords(ws: seq<string>)
    requires Words(ws)
    ensures SplitWs(Join(" ", ws)) == ws
    decreases |ws|, 1
  {
    if |ws| == 1 {
      SplitWsWord(ws[0]);
    } else if |ws| > 1 {
      SplitJoinWordsCons(ws);
    }
  }

  lemma {:induction false} SplitJoinWordsCons(ws: seq<string>)
    requires Words(ws) && |ws| > 1
    ensures SplitWs(Join(" ", ws)) == ws
    decreases |ws|, 0
  {
    SplitJoinStep(ws);
    WordsTail(ws);
    SplitJoinWords(ws[1..]);
    HeadTail(SplitWs(Join(" ", ws)), SplitWs(Join(" ", ws[1..])), ws);
  }

  lemma HeadTail<T>(a: seq<T>, b: seq<T>, xs: seq<T>)
    requires xs != [] && a == [xs[0]] + b && b == xs[1..]
    ensures a == xs
  {
  }

  lemma SplitJoinStep(ws: seq<string>)
    requires Words(ws) && |ws| > 1
    ensures SplitWs(Join(" ", ws)) == [ws[0]] + SplitWs(Join(" ", ws[1..]))
  {
    var rest := Join(" ", ws[1..]);
    WordsTail(ws);
    JoinWordsNonEmpty(ws[1..]);
    assert !IsSpace(rest[0]) by { assert rest[0] == ws[1][0]; }
    SplitWsCons(ws[0], rest);
  }

  lemma WordsTail(ws: seq<string>)
    requires Words(ws) && ws != []
    ensures Words(ws[1..])
  {
    forall i | 0 <= i < |ws| - 1 ensures ws[1..][i] != [] && NoSpace(ws[1..][i]) {
      assert ws[1..][i] == ws[i + 1];
    }
  }

  lemma SplitWsWord(w: string)
    requires w != [] && NoSpace(w)
    ensures SplitWs(w) == [w]
  {
    assert LStrip(w) == w;
    assert WordEnd(w) == |w|;
    assert w[|w|..] == [];
    assert w[..|w|] == w;
  }

  lemma SplitWsCons(w: string, rest: string)
    requires w != [] && NoSpace(w)
    requires rest != [] && !IsSpace(rest[0])
    ensures SplitWs(w + " " + rest) == [w] + SplitWs(rest)
  {
    var t := " " + rest;
    var s := w + t;
    ConcatAssoc(w, " ", rest);
    ConcatParts(w, t);
    assert t[0] == ' ';
    WordEndAt(s, |w|);
    SplitWsAt(s, |w|);
    SplitWsSkip(rest);
  }

  lemma ConcatAssoc<T>(a: seq<T>, b: seq<T>, c: seq<T>)
    ensures a + b + c == a + (b + c)
  {
  }

  lemma ConcatAssoc5<T>(a: seq<T>, p: seq<T>, x: seq<T>, q: seq<T>, b: seq<T>)
    ensures a + p + x + q + b == a + (p + x + q + b)
  {
  }

  /** A sequence cut at two positions is the three pieces in order. */
  lemma CutThree<T>(s: seq<T>, a: nat, b: nat)
    requires a <= b <= |s|
    ensures s[..a] + s[a..b] + s[b..] == s
  {
  }

  /** Where `b` begins inside `a + b`. */
  lemma ConcatParts<T>(a: seq<T>, b: seq<T>)
    requires a != [] && b != []
    ensures (a + b)[..|a|] == a && (a + b)[|a|..] == b
    ensures (a + b)[|a|] == b[0] && (a + b)[0] == a[0]
  {
  }

  /** `split()` of text that starts with a word: that word, then the split of the rest. */
  lemma SplitWsAt(s: string, n: nat)
    requires s != [] && !IsSpace(s[0]) && WordEnd(s) == n
    ensures SplitWs(s) == [s[..n]] + SplitWs(s[n..])
  {
    assert LStrip(s) == s;
  }

  /** A leading space does not change `split()` of text that starts with a word. */
  lemma SplitWsSkip(r: string)
    requires r != [] && !IsSpace(r[0])
    ensures SplitWs(" " + r) == SplitWs(r)
  {
    assert (" " + r)[1..] == r;
    assert LStrip(" " + r) == r;
    assert LStrip(r) == r;
  }

  lemma WordEndAt(s: string, n: nat)
    requires n < |s| && NoSpace(s[..n]) && IsSpace(s[n])
    ensures WordEnd(s) == n
    decreases n
  {
    if n > 0 {
      assert !IsSpace(s[..n][0]);
      assert s[1..][..n - 1] == s[..n][1..];
      WordEndAt(s[1..], n - 1);
    }
  }

  /** `s.split(sep)` for a one-character separator: always at least one part. */
  function SplitOn(s: string, sep: char): (parts: seq<string>)
    ensures |parts| >= 1
  {
    if s == [] then [""]
    else if s[0] == sep then [""] + SplitOn(s[1..], sep)
    else
      var rest := SplitOn(s[1..], sep);
      [[s[0]] + rest[0]] + rest[1..]
  }

  /** No part of a split holds the separator. */
  lemma {:induction false} SplitOnParts(s: string, sep: char)
    ensures forall i :: 0 <= i < |SplitOn(s, sep)| ==> sep !in SplitOn(s, sep)[i]
    decreases |s|
  {
    if s != [] {
      SplitOnParts(s[1..], sep);
      var rest := SplitOn(s[1..], sep);
      if s[0] != sep {
        assert sep !in [s[0]] + rest[0];
        assert forall i :: 1 <= i < |rest| ==> rest[1..][i - 1] == rest[i];
      }
    }
  }

  /** Joining the parts of a split with the separator gives back the text. */
  lemma {:induction false} JoinSplitOn(s: string, sep: char)
    ensures Join([sep], SplitOn(s, sep)) == s
  {
    if s != [] {
      JoinSplitOn(s[1..], sep);
      var rest := SplitOn(s[1..], sep);
      if s[0] == sep {
        JoinCons([sep], "", rest);
      } else if |rest| == 1 {
      } else {
        var p := [[s[0]] + rest[0]] + rest[1..];
        assert p[1..] == rest[1..];
        assert Join([sep], p) == [s[0]] + rest[0] + [sep] + Join([sep], rest[1..]);
      }
    }
  }

  /** Splitting the join of separator-free parts gives back the parts. */
  lemma {:induction false} SplitOnJoin(parts: seq<string>, sep: char)
    requires |parts| >= 1
    requires forall i :: 0 <= i < |parts| ==> sep !in parts[i]
    ensures SplitOn(Join([sep], parts), sep) == parts
  {
    if |parts| == 1 {
      SplitOnFree(parts[0], sep);
    } else {
      SplitOnJoin(parts[1..], sep);
      JoinCons([sep], parts[0], parts[1..]);
      SplitOnPrefix(parts[0], Join([sep], parts[1..]), sep);
      assert parts == [parts[0]] + parts[1..];
    }
  }

  lemma {:induction false} SplitOnFree(s: string, sep: char)
    requires sep !in s
    ensures SplitOn(s, sep) == [s]
  {
    if s != [] {
      SplitOnFree(s[1..], sep);
      assert [s[0]] + s[1..] == s;
    }
  }

  lemma {:induction false} SplitOnPrefix(a: string, b: string, sep: char)
    requires sep !in a
    ensures SplitOn(a + [sep] + b, sep) == [a] + SplitOn(b, sep)
  {
    if a == [] {
      assert ([] + [sep] + b)[1..] == b;
    } else {
      assert (a + [sep] + b)[1..] == a[1..] + [sep] + b;
      SplitOnPrefix(a[1..], b, sep);
      assert [a[0]] + a[1..] == a;
    }
  }

  /** Splitting at a separator splits each side separately. */
  lemma {:induction false} SplitOnAppend(a: string, b: string, sep: char)
    ensures SplitOn(a + [sep] + b, sep) == SplitOn(a, sep) + SplitOn(b, sep)
  {
    if a == [] {
      assert ([] + [sep] + b)[1..] == b;
    } else {
      assert (a + [sep] + b)[1..] == a[1..] + [sep] + b;
      SplitOnAppend(a[1..], b, sep);
      if a[0] != sep {
        var A, B := SplitOn(a[1..], sep), SplitOn(b, sep);
        assert (A + B)[0] == A[0] && (A + B)[1..] == A[1..] + B;
      }
    }
  }

  /** `s.replace(pat, rep)`: non-overlapping occurrences, left to right. */
  function Replace(s: string, pat: string, rep: string): string
    requires pat != []
    decreases |s|
  {
    if |s| < |pat| then s
    else if s[..|pat|] == pat then rep + Replace(s[|pat|..], pat, rep)
    else [s[0]] + Replace(s[1..], pat, rep)
  }

  /** Text without the first character of the pattern is left alone. */
  lemma {:induction false} ReplaceAbsent(s: string, pat: string, rep: string)
    requires pat != [] && pat[0] !in s
    ensures Replace(s, pat, rep) == s
    decreases |s|
  {
    if |s| >= |pat| {
      assert s[..|pat|][0] == s[0];
      ReplaceAbsent(s[1..], pat, rep);
    }
  }

  predicate IsPrefix(p: string, s: string) {
    |p| <= |s| && s[..|p|] == p
  }

  // ---------------------------------------------------------------
  // Decimal rendering of non-negative integers
  // ---------------------------------------------------------------

  function DigitChar(d: nat): char
    requires d < 10
  {
    "0123456789"[d]
  }

  function DigitValue(c: char): nat
    requires IsAsciiDigit(c)
  {
    (c as int - '0' as int) as nat
  }

  /** The value of a string of decimal digits. */
  function DigitsValue(s: string): nat
    requires AllDigits(s)
  {
    if s == [] then 0 else DigitsValue(s[..|s| - 1]) * 10 + DigitValue(s[|s| - 1])
  }

  /** `str(n)` for a non-negative integer. */
  function Decimal(n: nat): (r: string)
    ensures |r| >= 1 && AllDigits(r)
  {
    if n < 10 then [DigitChar(n)] else Decimal(n / 10) + [DigitChar(n % 10)]
  }

  /** The digits of `str(n)` read back as `n`. */
  lemma {:induction false} DecimalValue(n: nat)
    ensures DigitsValue(Decimal(n)) == n
  {
    if n >= 10 {
      var r := Decimal(n);
      assert r[..|r| - 1] == Decimal(n / 10);
      DecimalValue(n / 10);
    }
  }

  lemma DecimalInjective(m: nat, n: nat)
    requires Decimal(m) == Decimal(n)
    ensures m == n
  {
    DecimalValue(m);
    DecimalValue(n);
  }

  lemma {:induction false} LeadingZeroValue(s: string)
    requires AllDigits(s)
    ensures AllDigits("0" + s) && DigitsValue("0" + s) == DigitsValue(s)
  {
    if s != [] {
      assert ("0" + s)[..|"0" + s| - 1] == "0" + s[..|s| - 1];
      LeadingZeroValue(s[..|s| - 1]);
    }
  }

  /** `f"{n:0{width}d}"`: the decimal digits of `n`, padded with zeros on the left to `width`. */
  function ZeroPad(n: nat, width: nat): (r: string)
    ensures |r| == if |Decimal(n)| >= width then |Decimal(n)| else width
    ensures AllDigits(r)
    decreases width
  {
    if |Decimal(n)| >= width then Decimal(n) else "0" + ZeroPad(n, width - 1)
  }

  /** Zero padding does not change the value the digits denote. */
  lemma {:induction false} ZeroPadValue(n: nat, width: nat)
    ensures DigitsValue(ZeroPad(n, width)) == n
    decreases width
  {
    if |Decimal(n)| >= width {
      DecimalValue(n);
    } else {
      ZeroPadValue(n, width - 1);
      LeadingZeroValue(ZeroPad(n, width - 1));
    }
  }

  /** ASCII lower-casing of one character. */
  function LowerChar(c: char): char {
    if 'A' <= c <= 'Z' then (c as int + 32) as char else c
  }

  /** `s.lower()` restricted to ASCII letters. */
  function Lower(s: string): (r: string)
    ensures |r| == |s| && forall i :: 0 <= i < |s| ==> r[i] == LowerChar(s[i])
  {
    if s == [] then [] else [LowerChar(s[0])] + Lower(s[1..])
  }
}
