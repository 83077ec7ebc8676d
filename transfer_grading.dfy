/**
 * Moodle partial credit: the `fraction` attribute of each answer, in percent.
 * In single-answer mode the first option flagged `True` is worth 100 and all
 * others 0; in multiple-answer mode the options flagged `True` share +100
 * and the others share -100. A share is printed with six decimals; the
 * model keeps the exact rational and leaves the printing to a formatter.
 */
module TransferGrading {
  import opened Wrappers
  import opened QuestionModel

  /** The text of a fraction: a fixed literal, or a share printed as `f"{share:.6f}"`. */
  datatype Fraction = Literal(text: string) | Fixed6(share: real)

  /** The percentage a fraction stands for. */
  function Percent(f: Fraction): real {
    match f
    case Fixed6(r) => r
    case Literal(t) => if t == "100.000000" then 100.0 else 0.0
  }

  /** How many flags are `True` itself (`v is True`, not truthiness). */
  function CountTrue(options: seq<(string, Value)>): (n: nat)
    ensures n <= |options|
    decreases |options|
  {
    if options == [] then 0
    else CountTrue(options[..|options| - 1]) + (if IsTrue(options[|options| - 1].1) then 1 else 0)
  }

  /** The keys flagged `True`, in order. */
  function TrueKeys(options: seq<(string, Value)>): (ks: seq<string>)
    ensures |ks| == CountTrue(options)
    decreases |options|
  {
    if options == [] then []
    else
      var k := options[|options| - 1];
      TrueKeys(options[..|options| - 1]) + (if IsTrue(k.1) then [k.0] else [])
  }

  /** The keys not flagged `True`, in order. */
  function OtherKeys(options: seq<(string, Value)>): (ks: seq<string>)
    ensures |ks| == |options| - CountTrue(options)
    decreases |options|
  {
    if options == [] then []
    else
      var k := options[|options| - 1];
      OtherKeys(options[..|options| - 1]) + (if IsTrue(k.1) then [] else [k.0])
  }

  /** The position of the first option flagged `True`. */
  function FirstTrue(options: seq<(string, Value)>): (r: Option<nat>)
    ensures r.Some? ==> r.value < |options| && IsTrue(options[r.value].1)
    ensures r.Some? ==> forall j :: 0 <= j < r.value ==> !IsTrue(options[j].1)
    ensures r.None? <==> forall j :: 0 <= j < |options| ==> !IsTrue(options[j].1)
  {
    if options == [] then None
    else if IsTrue(options[0].1) then Some(0)
    else match FirstTrue(options[1..])
      case None => None
      case Some(j) => Some(j + 1)
  }

  lemma {:induction false} CountTruePositive(options: seq<(string, Value)>, i: nat)
    requires i < |options| && IsTrue(options[i].1)
    ensures CountTrue(options) > 0
    decreases |options|
  {
    var n := |options| - 1;
    if i < n {
      assert options[..n][i] == options[i];
      CountTruePositive(options[..n], i);
    }
  }

  lemma CountOtherPositive(options: seq<(string, Value)>, i: nat)
    requires i < |options| && !IsTrue(options[i].1)
    ensures CountTrue(options) < |options|
  {
    var ks := OtherKeys(options);
    OtherKeysMember(options, i);
  }

  /** The fraction `fractions_from_options` assigns to option `i`, stated position by position. */
  function FractionFor(options: seq<(string, Value)>, single: bool, i: nat): Fraction
    requires i < |options|
  {
    if single then
      if FirstTrue(options) == Some(i) then Literal("100.000000") else Literal("0")
    else if IsTrue(options[i].1) then
      CountTruePositive(options, i);
      Fixed6(100.0 / CountTrue(options) as real)
    else
      CountOtherPositive(options, i);
      Fixed6(-100.0 / (|options| - CountTrue(options)) as real)
  }

  /** The keys of the options, as a set. */
  function KeySet(options: seq<(string, Value)>): set<string> {
    set i | 0 <= i < |options| :: options[i].0
  }

  lemma {:induction false} TrueKeysMember(options: seq<(string, Value)>, i: nat)
    requires DistinctKeys(options) && i < |options|
    ensures options[i].0 in TrueKeys(options) <==> IsTrue(options[i].1)
    decreases |options|
  {
    var n := |options| - 1;
    var pre := options[..n];
    KeysOfTrueKeys(pre);
    if i < n {
      assert pre[i] == options[i];
      TrueKeysMember(pre, i);
      assert options[i].0 != options[n].0;
    } else {
      assert forall j :: 0 <= j < n ==> pre[j].0 != options[n].0;
    }
  }

  lemma {:induction false} OtherKeysMember(options: seq<(string, Value)>, i: nat)
    requires i < |options|
    ensures !IsTrue(options[i].1) ==> options[i].0 in OtherKeys(options)
    decreases |options|
  {
    var n := |options| - 1;
    if i < n {
      assert options[..n][i] == options[i];
      OtherKeysMember(options[..n], i);
    }
  }

  lemma {:induction false} OtherKeysMemberIff(options: seq<(string, Value)>, i: nat)
    requires DistinctKeys(options) && i < |options|
    ensures options[i].0 in OtherKeys(options) <==> !IsTrue(options[i].1)
    decreases |options|
  {
    var n := |options| - 1;
    var pre := options[..n];
    KeysOfOtherKeys(pre);
    if i < n {
      assert pre[i] == options[i];
      OtherKeysMemberIff(pre, i);
      assert options[i].0 != options[n].0;
    } else {
      assert forall j :: 0 <= j < n ==> pre[j].0 != options[n].0;
    }
  }

  /** Every key listed as flagged `True` is a key of the options. */
  lemma {:induction false} KeysOfTrueKeys(options: seq<(string, Value)>)
    ensures forall k :: k in TrueKeys(options) ==> exists j :: 0 <= j < |options| && options[j].0 == k
    decreases |options|
  {
    if options != [] {
      var n := |options| - 1;
      KeysOfTrueKeys(options[..n]);
      forall k | k in TrueKeys(options)
        ensures exists j :: 0 <= j < |options| && options[j].0 == k
      {
        if k in TrueKeys(options[..n]) {
          var j :| 0 <= j < n && options[..n][j].0 == k;
          assert options[j].0 == k;
        } else {
          assert options[n].0 == k;
        }
      }
    }
  }

  lemma {:induction false} KeysOfOtherKeys(options: seq<(string, Value)>)
    ensures forall k :: k in OtherKeys(options) ==> exists j :: 0 <= j < |options| && options[j].0 == k
    decreases |options|
  {
    if options != [] {
      var n := |options| - 1;
      KeysOfOtherKeys(options[..n]);
      forall k | k in OtherKeys(options)
        ensures exists j :: 0 <= j < |options| && options[j].0 == k
      {
        if k in OtherKeys(options[..n]) {
          var j :| 0 <= j < n && options[..n][j].0 == k;
          assert options[j].0 == k;
        } else {
          assert options[n].0 == k;
        }
      }
    }
  }

  lemma TrueKeyIsKey(options: seq<(string, Value)>, k: nat)
    requires k < |TrueKeys(options)|
    ensures TrueKeys(options)[k] in KeySet(options)
  {
    KeysOfTrueKeys(options);
    assert TrueKeys(options)[k] in TrueKeys(options);
    var j :| 0 <= j < |options| && options[j].0 == TrueKeys(options)[k];
  }

  lemma OtherKeyIsKey(options: seq<(string, Value)>, k: nat)
    requires k < |OtherKeys(options)|
    ensures OtherKeys(options)[k] in KeySet(options)
  {
    KeysOfOtherKeys(options);
    assert OtherKeys(options)[k] in OtherKeys(options);
    var j :| 0 <= j < |options| && options[j].0 == OtherKeys(options)[k];
  }

  lemma TrueKeysHead(options: seq<(string, Value)>)
    requires FirstTrue(options).Some?
    ensures TrueKeys(options) != [] && TrueKeys(options)[0] == options[FirstTrue(options).value].0
  {
    var f := FirstTrue(options).value;
    TrueKeysFrom(options, f);
  }

  /** With no `True` flag before position `f` and one at `f`, the key at `f` heads the list. */
  lemma {:induction false} TrueKeysFrom(options: seq<(string, Value)>, f: nat)
    requires f < |options| && IsTrue(options[f].1)
    requires forall j :: 0 <= j < f ==> !IsTrue(options[j].1)
    ensures TrueKeys(options) != [] && TrueKeys(options)[0] == options[f].0
    decreases |options|
  {
    var n := |options| - 1;
    if f < n {
      assert options[..n][f] == options[f];
      TrueKeysFrom(options[..n], f);
    } else {
      TrueKeysNone(options[..n]);
    }
  }

  lemma {:induction false} TrueKeysNone(options: seq<(string, Value)>)
    requires forall j :: 0 <= j < |options| ==> !IsTrue(options[j].1)
    ensures TrueKeys(options) == []
    decreases |options|
  {
    if options != [] {
      TrueKeysNone(options[..|options| - 1]);
    }
  }

  /**
   * `fractions_from_options`: the list of keys, the keys flagged `True` and
   * the others, then either the single-answer dict or a dict of `"0"`
   * overwritten by the two shares. The result has exactly the option keys,
   * each with the fraction of its position.
   */
  method FractionsFromOptions(options: seq<(string, Value)>, single: bool) returns (out: map<string, Fraction>)
    requires DistinctKeys(options)
    ensures out.Keys == KeySet(options)
    ensures forall i :: 0 <= i < |options| ==> out[options[i].0] == FractionFor(options, single, i)
  {
    var keys: seq<string> := [];
    var correctKeys: seq<string> := [];
    var wrongKeys: seq<string> := [];
    for k := 0 to |options|
      invariant keys == Keys(options[..k])
      invariant correctKeys == TrueKeys(options[..k])
      invariant wrongKeys == OtherKeys(options[..k])
    {
      assert options[..k + 1][..k] == options[..k];
      keys := keys + [options[k].0];
      if IsTrue(options[k].1) {
        correctKeys := correctKeys + [options[k].0];
      } else {
        wrongKeys := wrongKeys + [options[k].0];
      }
    }
    assert options[..|options|] == options;
    if single {
      out := SingleFractions(options, keys, correctKeys);
    } else {
      out := MultiFractions(options, keys, correctKeys, wrongKeys);
    }
  }

  /** `{k: ("100.000000" if k in correct_keys[:1] else "0") for k in keys}` */
  method SingleFractions(options: seq<(string, Value)>, keys: seq<string>, correctKeys: seq<string>)
    returns (out: map<string, Fraction>)
    requires DistinctKeys(options)
    requires keys == Keys(options) && correctKeys == TrueKeys(options)
    ensures out.Keys == KeySet(options)
    ensures forall i :: 0 <= i < |options| ==> out[options[i].0] == FractionFor(options, true, i)
  {
    var first: seq<string> := if |correctKeys| > 0 then [correctKeys[0]] else [];
    FirstKey(options, correctKeys, first);
    out := MarkDict(options, keys, first);
  }

  /** `correct_keys[:1]` holds the key of option `j` exactly when `j` is the first option flagged `True`. */
  lemma FirstKey(options: seq<(string, Value)>, correctKeys: seq<string>, first: seq<string>)
    requires DistinctKeys(options) && correctKeys == TrueKeys(options)
    requires first == if |correctKeys| > 0 then [correctKeys[0]] else []
    ensures forall j :: 0 <= j < |options| ==> (options[j].0 in first <==> FirstTrue(options) == Some(j))
  {
    if FirstTrue(options).Some? {
      TrueKeysHead(options);
      assert first == [options[FirstTrue(options).value].0];
    } else {
      TrueKeysNone(options);
    }
  }

  /** `{k: ("100.000000" if k in first else "0") for k in keys}` */
  method MarkDict(options: seq<(string, Value)>, keys: seq<string>, first: seq<string>)
    returns (out: map<string, Fraction>)
    requires DistinctKeys(options) && keys == Keys(options)
    requires forall j :: 0 <= j < |options| ==> (options[j].0 in first <==> FirstTrue(options) == Some(j))
    ensures out.Keys == KeySet(options)
    ensures forall i :: 0 <= i < |options| ==> out[options[i].0] == FractionFor(options, true, i)
  {
    out := map[];
    for k := 0 to |options|
      invariant out.Keys == set j | 0 <= j < k :: options[j].0
      invariant forall j :: 0 <= j < k ==> out[options[j].0] == FractionFor(options, true, j)
    {
      var key := keys[k];
      out := out[key := if key in first then Literal("100.000000") else Literal("0")];
      forall j | 0 <= j < k
        ensures out[options[j].0] == FractionFor(options, true, j)
      {
        assert options[j].0 != key;
      }
    }
  }

  /** `out = {k: "0" for k in keys}`, then the share of each correct key, then the share of each wrong key. */
  method MultiFractions(options: seq<(string, Value)>, keys: seq<string>, correctKeys: seq<string>, wrongKeys: seq<string>)
    returns (out: map<string, Fraction>)
    requires DistinctKeys(options)
    requires keys == Keys(options) && correctKeys == TrueKeys(options) && wrongKeys == OtherKeys(options)
    ensures out.Keys == KeySet(options)
    ensures forall i :: 0 <= i < |options| ==> out[options[i].0] == FractionFor(options, false, i)
  {
    out := ZeroDict(options, keys);
    var c := |correctKeys|;
    var w := |wrongKeys|;
    var shareC := if c > 0 then 100.0 / c as real else 0.0;
    var shareW := if w > 0 then -100.0 / w as real else 0.0;
    if c > 0 {
      forall k | 0 <= k < c ensures correctKeys[k] in out { TrueKeyIsKey(options, k); }
      out := SetShare(out, correctKeys, shareC);
    }
    if w > 0 {
      forall k | 0 <= k < w ensures wrongKeys[k] in out { OtherKeyIsKey(options, k); }
      out := SetShare(out, wrongKeys, shareW);
    }
    forall i | 0 <= i < |options|
      ensures out[options[i].0] == FractionFor(options, false, i)
    {
      TrueKeysMember(options, i);
      OtherKeysMemberIff(options, i);
    }
  }

  /** `{k: "0" for k in keys}` */
  method ZeroDict(options: seq<(string, Value)>, keys: seq<string>) returns (out: map<string, Fraction>)
    requires keys == Keys(options)
    ensures out.Keys == KeySet(options)
    ensures forall key :: key in out ==> out[key] == Literal("0")
  {
    out := map[];
    for k := 0 to |options|
      invariant out.Keys == set j | 0 <= j < k :: options[j].0
      invariant forall key :: key in out ==> out[key] == Literal("0")
    {
      out := out[keys[k] := Literal("0")];
    }
  }

  /** `for k in ks: out[k] = share`, over keys already in the dict. */
  method SetShare(m: map<string, Fraction>, ks: seq<string>, share: real) returns (out: map<string, Fraction>)
    requires forall k :: 0 <= k < |ks| ==> ks[k] in m
    ensures out.Keys == m.Keys
    ensures forall key :: key in out ==> out[key] == if key in ks then Fixed6(share) else m[key]
  {
    out := m;
    for k := 0 to |ks|
      invariant out.Keys == m.Keys
      invariant forall key :: key in out ==> out[key] == if key in ks[..k] then Fixed6(share) else m[key]
    {
      out := out[ks[k] := Fixed6(share)];
      assert ks[..k + 1] == ks[..k] + [ks[k]];
    }
    assert ks[..|ks|] == ks;
  }

  // ---------------------------------------------------------------
  // Properties of the fractions
  // ---------------------------------------------------------------

  /**
   * Single-answer mode: the first option flagged `True` is the only one
   * worth 100; with no such option every fraction is `"0"`.
   */
  lemma SingleMode(options: seq<(string, Value)>, i: nat)
    requires i < |options|
    ensures FractionFor(options, true, i) == Literal("100.000000") <==>
            IsTrue(options[i].1) && forall j :: 0 <= j < i ==> !IsTrue(options[j].1)
    ensures FractionFor(options, true, i) != Literal("100.000000") ==> FractionFor(options, true, i) == Literal("0")
  {
    if IsTrue(options[i].1) && forall j :: 0 <= j < i ==> !IsTrue(options[j].1) {
      FirstTrueAt(options, i);
    }
  }

  lemma {:induction false} FirstTrueAt(options: seq<(string, Value)>, i: nat)
    requires i < |options| && IsTrue(options[i].1)
    requires forall j :: 0 <= j < i ==> !IsTrue(options[j].1)
    ensures FirstTrue(options) == Some(i)
    decreases i
  {
    if i > 0 {
      FirstTrueAt(options[1..], i - 1);
    }
  }

  /** Multiple-answer mode: options flagged `True` get 100/C, the others -100/W; no `"0"` remains. */
  lemma MultiMode(options: seq<(string, Value)>, i: nat)
    requires i < |options|
    ensures IsTrue(options[i].1) ==>
              CountTrue(options) > 0 && FractionFor(options, false, i) == Fixed6(100.0 / CountTrue(options) as real)
    ensures !IsTrue(options[i].1) ==>
              (|options| - CountTrue(options) > 0 &&
               FractionFor(options, false, i) == Fixed6(-100.0 / (|options| - CountTrue(options)) as real))
  {
    if IsTrue(options[i].1) {
      MultiModeCorrect(options, i);
    } else {
      MultiModeWrong(options, i);
    }
  }

  lemma MultiModeCorrect(options: seq<(string, Value)>, i: nat)
    requires i < |options| && IsTrue(options[i].1)
    ensures CountTrue(options) > 0 && FractionFor(options, false, i) == Fixed6(100.0 / CountTrue(options) as real)
  {
    CountTruePositive(options, i);
  }

  lemma MultiModeWrong(options: seq<(string, Value)>, i: nat)
    requires i < |options| && !IsTrue(options[i].1)
    ensures |options| - CountTrue(options) > 0 &&
            FractionFor(options, false, i) == Fixed6(-100.0 / (|options| - CountTrue(options)) as real)
  {
    CountOtherPositive(options, i);
  }

  lemma ShareTimesCount(total: real, n: nat)
    requires n > 0
    ensures n as real * (total / n as real) == total
  {
  }

  /** The percentage of each option's fraction, in option order. */
  function Percents(options: seq<(string, Value)>, single: bool): (r: seq<real>)
    ensures |r| == |options|
  {
    seq(|options|, j requires 0 <= j < |options| => Percent(FractionFor(options, single, j)))
  }

  /** The sum of the first `n` percentages whose option's flag is `True` exactly when `side` is. */
  function SideSum(options: seq<(string, Value)>, pcts: seq<real>, side: bool, n: nat): real
    requires n <= |options| && |pcts| == |options|
  {
    if n == 0 then 0.0
    else SideSum(options, pcts, side, n - 1) + (if IsTrue(options[n - 1].1) == side then pcts[n - 1] else 0.0)
  }

  /** How many of the first `n` options have a `True` flag exactly when `side` is. */
  function SideCount(options: seq<(string, Value)>, side: bool, n: nat): nat
    requires n <= |options|
  {
    if n == 0 then 0 else SideCount(options, side, n - 1) + (if IsTrue(options[n - 1].1) == side then 1 else 0)
  }

  lemma {:induction false} SideCountTotal(options: seq<(string, Value)>, n: nat)
    requires n <= |options|
    ensures SideCount(options, true, n) == CountTrue(options[..n])
    ensures SideCount(options, false, n) == n - CountTrue(options[..n])
  {
    if n > 0 {
      SideCountTotal(options, n - 1);
      assert options[..n][..n - 1] == options[..n - 1];
    }
  }

  /** `k` copies of `share` added up. */
  function Times(k: nat, share: real): real {
    if k == 0 then 0.0 else Times(k - 1, share) + share
  }

  lemma {:induction false} TimesMul(k: nat, share: real)
    ensures Times(k, share) == k as real * share
  {
    if k > 0 {
      TimesMul(k - 1, share);
      MulSucc(k - 1, share);
    }
  }

  lemma MulSucc(k: nat, share: real)
    ensures (k + 1) as real * share == k as real * share + share
  {
  }

  lemma {:induction false} SideSumShares(options: seq<(string, Value)>, pcts: seq<real>, side: bool, n: nat, share: real)
    requires n <= |options| && |pcts| == |options|
    requires forall j :: 0 <= j < |options| && IsTrue(options[j].1) == side ==> pcts[j] == share
    ensures SideSum(options, pcts, side, n) == Times(SideCount(options, side, n), share)
  {
    if n > 0 {
      SideSumShares(options, pcts, side, n - 1, share);
    }
  }

  /** Percentages of one side that all equal `total / count` add up to `total` when that side has `count` options. */
  lemma SideTotal(options: seq<(string, Value)>, pcts: seq<real>, side: bool, count: nat, total: real)
    requires count > 0 && SideCount(options, side, |options|) == count && |pcts| == |options|
    requires forall j :: 0 <= j < |options| && IsTrue(options[j].1) == side ==> pcts[j] == total / count as real
    ensures SideSum(options, pcts, side, |options|) == total
  {
    SideSumShares(options, pcts, side, |options|, total / count as real);
    TimesMul(count, total / count as real);
    ShareTimesCount(total, count);
  }

  /**
   * In multiple-answer mode the shares of the options flagged `True` add up
   * to 100 and those of the others to -100, whenever there are any.
   */
  lemma MultiSums(options: seq<(string, Value)>)
    ensures CountTrue(options) > 0 ==> SideSum(options, Percents(options, false), true, |options|) == 100.0
    ensures CountTrue(options) < |options| ==> SideSum(options, Percents(options, false), false, |options|) == -100.0
  {
    if CountTrue(options) > 0 {
      MultiSide(options, true, 100.0);
    }
    if CountTrue(options) < |options| {
      MultiSide(options, false, -100.0);
    }
  }

  /** One side of `MultiSums`: its options share `total` equally. */
  lemma MultiSide(options: seq<(string, Value)>, side: bool, total: real)
    requires total == if side then 100.0 else -100.0
    requires if side then CountTrue(options) > 0 else CountTrue(options) < |options|
    ensures SideSum(options, Percents(options, false), side, |options|) == total
  {
    var pcts := Percents(options, false);
    var count := SideCount(options, side, |options|);
    SideCountTotal(options, |options|);
    assert options[..|options|] == options;
    assert count == if side then CountTrue(options) else |options| - CountTrue(options);
    forall j | 0 <= j < |options| && IsTrue(options[j].1) == side
      ensures pcts[j] == total / count as real
    {
      MultiMode(options, j);
    }
    SideTotal(options, pcts, side, count, total);
  }

  /**
   * In single-answer mode the fractions add up to 100 when some option is
   * flagged `True` and to 0 otherwise.
   */
  lemma SingleSum(options: seq<(string, Value)>)
    ensures SideSum(options, Percents(options, true), true, |options|) == if FirstTrue(options).Some? then 100.0 else 0.0
    ensures SideSum(options, Percents(options, true), false, |options|) == 0.0
  {
    SingleSumUpTo(options, |options|);
  }

  lemma {:induction false} SingleSumUpTo(options: seq<(string, Value)>, n: nat)
    requires n <= |options|
    ensures SideSum(options, Percents(options, true), true, n) ==
            if FirstTrue(options).Some? && FirstTrue(options).value < n then 100.0 else 0.0
    ensures SideSum(options, Percents(options, true), false, n) == 0.0
  {
    if n > 0 {
      SingleSumUpTo(options, n - 1);
    }
  }

  /** Single-answer mode is chosen exactly when it is enabled and one flag is `True`. */
  predicate SingleChosen(options: seq<(string, Value)>, autoSingle: bool) {
    autoSingle && CountTrue(options) == 1
  }
}
