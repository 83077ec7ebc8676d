/**
 * The hard-coded catalog of hydrogeology pages: categories, their
 * subcategories and (so far empty) sub-subcategories, each with the id
 * of its catalog page, and the lookups the registration form makes
 * in it. Python dicts become sequences of (key, value) pairs in
 * insertion order; a missing key is a `KeyError` result.
 */
module CatalogPages {
  import opened Wrappers

  /** One node of the catalog: its page id and its labelled children. */
  datatype Page = Page(pageId: string, sub: seq<(string, Page)>)

  /** A dict from labels to pages, in insertion order. */
  type Entries = seq<(string, Page)>

  datatype LookupError = KeyError(key: string)

  // ---------------------------------------------------------------
  // Dict access
  // ---------------------------------------------------------------

  /** The keys of a dict, in insertion order. */
  function Keys(entries: Entries): (ks: seq<string>)
    ensures |ks| == |entries|
    ensures forall i :: 0 <= i < |ks| ==> ks[i] == entries[i].0
  {
    if entries == [] then [] else [entries[0].0] + Keys(entries[1..])
  }

  lemma {:induction false} KeysAt(entries: Entries, i: nat)
    requires i < |entries|
    ensures Keys(entries)[i] == entries[i].0
  {
    if i > 0 {
      KeysAt(entries[1..], i - 1);
    }
  }

  /** `d[key]`, or nothing when the key is missing. */
  function Find(entries: Entries, key: string): (r: Option<Page>)
    ensures r.Some? <==> key in Keys(entries)
    ensures r.Some? ==> (key, r.value) in entries
  {
    if entries == [] then None
    else if entries[0].0 == key then Some(entries[0].1)
    else Find(entries[1..], key)
  }

  /** `d[key]` as a lookup that fails with the missing key. */
  function Lookup(entries: Entries, key: string): (r: Result<Page, LookupError>)
    ensures r.Failure? <==> key !in Keys(entries)
    ensures r.Failure? ==> r.error == KeyError(key)
    ensures r.Success? ==> (key, r.value) in entries
  {
    match Find(entries, key)
    case None => Failure(KeyError(key))
    case Some(p) => Success(p)
  }

  /** The node a path of labels leads to, the first missing label when there is none. */
  function PageAt(entries: Entries, path: seq<string>): Result<Page, LookupError>
    requires path != []
    decreases |path|
  {
    var p :- Lookup(entries, path[0]);
    if |path| == 1 then Success(p) else PageAt(p.sub, path[1..])
  }

  /** One step down a path. */
  lemma PageAtStep(entries: Entries, path: seq<string>)
    requires |path| > 1
    ensures Lookup(entries, path[0]).Failure? ==> PageAt(entries, path) == Failure(KeyError(path[0]))
    ensures Lookup(entries, path[0]).Success? ==> PageAt(entries, path) == PageAt(Lookup(entries, path[0]).value.sub, path[1..])
  {
  }

  // ---------------------------------------------------------------
  // Sorting labels (`sorted` on str keys)
  // ---------------------------------------------------------------

  /** Python's order on `str`: lexicographic by code point. */
  predicate StrLt(a: string, b: string)
    decreases |a|
  {
    if a == [] then b != []
    else if b == [] then false
    else if a[0] != b[0] then a[0] < b[0]
    else StrLt(a[1..], b[1..])
  }

  predicate StrLe(a: string, b: string) {
    a == b || StrLt(a, b)
  }

  lemma {:induction false} StrLtTotal(a: string, b: string)
    ensures a == b || StrLt(a, b) || StrLt(b, a)
    decreases |a|
  {
    if a != [] && b != [] && a[0] == b[0] {
      StrLtTotal(a[1..], b[1..]);
      if a[1..] == b[1..] {
        assert a == [a[0]] + a[1..] && b == [b[0]] + b[1..];
      }
    }
  }

  lemma {:induction false} StrLtIrreflexive(a: string)
    ensures !StrLt(a, a)
    decreases |a|
  {
    if a != [] {
      StrLtIrreflexive(a[1..]);
    }
  }

  /** Each label no greater than the next. */
  predicate Sorted(xs: seq<string>) {
    forall i :: 0 <= i < |xs| - 1 ==> StrLe(xs[i], xs[i + 1])
  }

  lemma SortedCons(x: string, xs: seq<string>)
    requires Sorted(xs) && (xs == [] || StrLe(x, xs[0]))
    ensures Sorted([x] + xs)
  {
    var r := [x] + xs;
    forall i | 0 <= i < |r| - 1 ensures StrLe(r[i], r[i + 1]) {
      if i > 0 {
        assert r[i] == xs[i - 1] && r[i + 1] == xs[i];
      }
    }
  }

  lemma SortedTail(xs: seq<string>)
    requires Sorted(xs) && xs != []
    ensures Sorted(xs[1..])
  {
    var tail := xs[1..];
    forall i | 0 <= i < |tail| - 1 ensures StrLe(tail[i], tail[i + 1]) {
      assert tail[i] == xs[i + 1] && tail[i + 1] == xs[i + 2];
    }
  }

  /** Inserts `x` before the first label not smaller than it. */
  function Insert(x: string, xs: seq<string>): (r: seq<string>)
    requires Sorted(xs)
    ensures Sorted(r) && multiset(r) == multiset(xs) + multiset{x}
    ensures r[0] == x || (xs != [] && r[0] == xs[0])
  {
    if xs == [] then [x]
    else if StrLe(x, xs[0]) then
      SortedCons(x, xs);
      [x] + xs
    else
      SortedTail(xs);
      var rest := Insert(x, xs[1..]);
      StrLtTotal(x, xs[0]);
      assert |xs| > 1 ==> StrLe(xs[0], xs[1]);
      SortedCons(xs[0], rest);
      assert xs == [xs[0]] + xs[1..];
      [xs[0]] + rest
  }

  /** `sorted(xs)` */
  function Sort(xs: seq<string>): (r: seq<string>)
    ensures Sorted(r) && multiset(r) == multiset(xs)
  {
    if xs == [] then []
    else
      assert xs == [xs[0]] + xs[1..];
      Insert(xs[0], Sort(xs[1..]))
  }

  /** A strict order, so sorting keys with no duplicates gives them in increasing order. */
  predicate Increasing(xs: seq<string>) {
    forall i :: 0 <= i < |xs| - 1 ==> StrLt(xs[i], xs[i + 1])
  }

  /** Sorting labels already in order changes nothing. */
  lemma {:induction false} SortKeepsSorted(xs: seq<string>)
    requires Increasing(xs)
    ensures Sort(xs) == xs
  {
    if xs != [] {
      var tail := xs[1..];
      assert Increasing(tail) by {
        forall i | 0 <= i < |tail| - 1 ensures StrLt(tail[i], tail[i + 1]) {
          assert tail[i] == xs[i + 1] && tail[i + 1] == xs[i + 2];
        }
      }
      SortKeepsSorted(tail);
      assert xs == [xs[0]] + tail;
      if tail != [] {
        assert StrLt(xs[0], tail[0]);
      }
    }
  }

  // ---------------------------------------------------------------
  // The form's lookups
  // ---------------------------------------------------------------

  /** `get_categories`: the category labels in sorted order. */
  function GetCategories(catalog: Entries): (r: seq<string>)
    ensures Sorted(r) && multiset(r) == multiset(Keys(catalog))
  {
    Sort(Keys(catalog))
  }

  /** `get_subcategories(category)` */
  function GetSubcategories(catalog: Entries, category: string): (r: Result<seq<string>, LookupError>)
    ensures r.Failure? <==> category !in Keys(catalog)
    ensures r.Failure? ==> r.error == KeyError(category)
    ensures r.Success? ==>
      Sorted(r.value) && exists p :: (category, p) in catalog && multiset(r.value) == multiset(Keys(p.sub))
  {
    var p :- Lookup(catalog, category);
    Success(Sort(Keys(p.sub)))
  }

  /** `get_subsubcategories(category, subcategory)` */
  function GetSubsubcategories(catalog: Entries, category: string, subcategory: string): (r: Result<seq<string>, LookupError>)
    ensures r.Success? <==> PageAt(catalog, [category, subcategory]).Success?
    ensures r.Failure? ==> r.error == PageAt(catalog, [category, subcategory]).error
    ensures r.Success? ==>
      Sorted(r.value) && multiset(r.value) == multiset(Keys(PageAt(catalog, [category, subcategory]).value.sub))
  {
    var p :- Lookup(catalog, category);
    var q :- Lookup(p.sub, subcategory);
    assert [category, subcategory][1..] == [subcategory];
    Success(Sort(Keys(q.sub)))
  }

  const HOMEPAGE := "(Category homepage)"
  const ATTACH := "(Attach to subcategory)"

  /** The labels a choice of the form leads through. */
  function ChosenPath(category: string, subChoice: string, subsubChoice: string): (path: seq<string>)
    ensures path != [] && path[0] == category
  {
    if subChoice == HOMEPAGE then [category]
    else if subsubChoice == "" || subsubChoice == ATTACH then [category, subChoice]
    else [category, subChoice, subsubChoice]
  }

  /**
   * `resolve_page`: the page id of the chosen node and the label used as
   * the topic title, the category's for `(Category homepage)`, the
   * subcategory's when no sub-subcategory is picked, else the
   * sub-subcategory's; a missing label fails with that label.
   */
  function ResolvePage(catalog: Entries, category: string, subChoice: string, subsubChoice: string)
    : (r: Result<(string, string), LookupError>)
    ensures var path := ChosenPath(category, subChoice, subsubChoice);
      && (r.Success? <==> PageAt(catalog, path).Success?)
      && (r.Success? ==> r.value == (PageAt(catalog, path).value.pageId, path[|path| - 1]))
      && (r.Failure? ==> r.error == PageAt(catalog, path).error)
  {
    var cat :- Lookup(catalog, category);
    if subChoice == HOMEPAGE then Success((cat.pageId, category))
    else
      var sub :- Lookup(cat.sub, subChoice);
      assert [category, subChoice][1..] == [subChoice];
      if subsubChoice == "" || subsubChoice == ATTACH then Success((sub.pageId, subChoice))
      else
        assert [category, subChoice, subsubChoice][1..] == [subChoice, subsubChoice];
        assert [subChoice, subsubChoice][1..] == [subsubChoice];
        PageAtStep(catalog, [category, subChoice, subsubChoice]);
        PageAtStep(cat.sub, [subChoice, subsubChoice]);
        var leaf :- Lookup(sub.sub, subsubChoice);
        Success((leaf.pageId, subsubChoice))
  }

  /** The homepage choice ignores the other two selections. */
  lemma ResolveHomepage(catalog: Entries, category: string, subsubChoice: string, other: string)
    ensures ResolvePage(catalog, category, HOMEPAGE, subsubChoice) == ResolvePage(catalog, category, HOMEPAGE, other)
  {
  }

  /** An empty sub-subcategory choice is the same as attaching to the subcategory. */
  lemma ResolveEmptyAttaches(catalog: Entries, category: string, subChoice: string)
    ensures ResolvePage(catalog, category, subChoice, "") == ResolvePage(catalog, category, subChoice, ATTACH)
  {
  }

  // ---------------------------------------------------------------
  // The shipped catalog
  // ---------------------------------------------------------------

  function Leaf(pageId: string): Page {
    Page(pageId, [])
  }

  const SOIL_PHYSICS: Entries := [
    ("01 Soil Properties", Leaf("030100_en")),
    ("02 Soil moisture retention", Leaf("030200_en")),
    ("03 Unsaturated Flow", Leaf("030300_en"))
  ]

  const BASIC_HYDROGEOLOGY: Entries := [
    ("01 Hydrogeological concepts", Leaf("040100_en")),
    ("02 Hydrogeological properties", Leaf("040200_en")),
    ("03 Steady Groundwater movement", Leaf("040300_en")),
    ("04 Transient Groundwater Movement", Leaf("040400_en")),
    ("05 Flow to wells", Leaf("040500_en"))
  ]

  const APPLIED_HYDROGEOLOGY: Entries := [
    ("01 Groundwater Management", Leaf("050100_en")),
    ("02 Karst Hydrology", Leaf("050200_en")),
    ("03 Aquifer Testing", Leaf("050300_en")),
    ("04 Conservative Transport", Leaf("050400_en")),
    ("05 Reactive Transport", Leaf("050500_en")),
    ("06 Freshwater-Saltwater Interaction", Leaf("050600_en"))
  ]

  const GROUND_WATER_MODELLING: Entries := [
    ("01 Concepts", Leaf("060100_en")),
    ("02 Numerical Schemes", Leaf("060200_en")),
    ("03 Flow Modelling", Leaf("060300_en")),
    ("04 Transport Modelling", Leaf("060400_en")),
    ("05 Coupled Models", Leaf("060500_en"))
  ]

  /** `CATALOG` */
  const CATALOG: Entries := [
    ("01 Water Cycle", Page("010000_en", [])),
    ("02 Basic Hydrology", Page("020000_en", [])),
    ("03 Soil Physics", Page("030000_en", SOIL_PHYSICS)),
    ("04 Basic Hydrogeology", Page("040000_en", BASIC_HYDROGEOLOGY)),
    ("05 Applied Hydrogeology", Page("050000_en", APPLIED_HYDROGEOLOGY)),
    ("06 Ground Water Modelling", Page("060000_en", GROUND_WATER_MODELLING))
  ]

  /** Labels whose two-digit numbers count up from `01`. */
  predicate Numbered(entries: Entries) {
    forall i :: 0 <= i < |entries| ==>
      |entries[i].0| >= 3 && entries[i].0[..3] == Two(i + 1) + " "
  }

  /** The number `n < 100` as two digits. */
  function Two(n: nat): string
  {
    [('0' as int + n / 10 % 10) as char, ('0' as int + n % 10) as char]
  }

  /**
   * Every page id is the two-digit category number, the two-digit
   * subcategory number (`00` on a category page), `00` and `_en`;
   * so `page_id[:2]` is the category's number and `page_id[:4]` the
   * subcategory's, which the form uses as file-name prefixes.
   */
  predicate PageIdsFollow(entries: Entries, prefix: string) {
    forall i :: 0 <= i < |entries| ==>
      && entries[i].1.pageId == prefix + Two(i + 1) + "00" + "_en"
      && entries[i].1.sub == []
  }

  lemma SoilPhysicsIds()
    ensures PageIdsFollow(SOIL_PHYSICS, "03") && Numbered(SOIL_PHYSICS)
  {
    forall i | 0 <= i < |SOIL_PHYSICS|
      ensures var (key, page) := SOIL_PHYSICS[i];
        && page.pageId == "03" + Two(i + 1) + "00" + "_en" && page.sub == []
        && |key| >= 3 && key[..3] == Two(i + 1) + " "
    {
      if i == 0 { assert Two(1) == "01"; assert SOIL_PHYSICS[0].0[..3] == "01 "; }
      else if i == 1 { assert Two(2) == "02"; assert SOIL_PHYSICS[1].0[..3] == "02 "; }
      else { assert Two(3) == "03"; assert SOIL_PHYSICS[2].0[..3] == "03 "; }
    }
  }

  lemma BasicHydrogeologyIds()
    ensures PageIdsFollow(BASIC_HYDROGEOLOGY, "04") && Numbered(BASIC_HYDROGEOLOGY)
  {
    forall i | 0 <= i < |BASIC_HYDROGEOLOGY|
      ensures var (key, page) := BASIC_HYDROGEOLOGY[i];
        && page.pageId == "04" + Two(i + 1) + "00" + "_en" && page.sub == []
        && |key| >= 3 && key[..3] == Two(i + 1) + " "
    {
      if i == 0 { assert Two(1) == "01"; assert BASIC_HYDROGEOLOGY[0].0[..3] == "01 "; }
      else if i == 1 { assert Two(2) == "02"; assert BASIC_HYDROGEOLOGY[1].0[..3] == "02 "; }
      else if i == 2 { assert Two(3) == "03"; assert BASIC_HYDROGEOLOGY[2].0[..3] == "03 "; }
      else if i == 3 { assert Two(4) == "04"; assert BASIC_HYDROGEOLOGY[3].0[..3] == "04 "; }
      else { assert Two(5) == "05"; assert BASIC_HYDROGEOLOGY[4].0[..3] == "05 "; }
    }
  }

  lemma AppliedHydrogeologyIds()
    ensures PageIdsFollow(APPLIED_HYDROGEOLOGY, "05") && Numbered(APPLIED_HYDROGEOLOGY)
  {
    forall i | 0 <= i < |APPLIED_HYDROGEOLOGY|
      ensures var (key, page) := APPLIED_HYDROGEOLOGY[i];
        && page.pageId == "05" + Two(i + 1) + "00" + "_en" && page.sub == []
        && |key| >= 3 && key[..3] == Two(i + 1) + " "
    {
      if i == 0 { assert Two(1) == "01"; assert APPLIED_HYDROGEOLOGY[0].0[..3] == "01 "; }
      else if i == 1 { assert Two(2) == "02"; assert APPLIED_HYDROGEOLOGY[1].0[..3] == "02 "; }
      else if i == 2 { assert Two(3) == "03"; assert APPLIED_HYDROGEOLOGY[2].0[..3] == "03 "; }
      else if i == 3 { assert Two(4) == "04"; assert APPLIED_HYDROGEOLOGY[3].0[..3] == "04 "; }
      else if i == 4 { assert Two(5) == "05"; assert APPLIED_HYDROGEOLOGY[4].0[..3] == "05 "; }
      else { assert Two(6) == "06"; assert APPLIED_HYDROGEOLOGY[5].0[..3] == "06 "; }
    }
  }

  lemma GroundWaterModellingIds()
    ensures PageIdsFollow(GROUND_WATER_MODELLING, "06") && Numbered(GROUND_WATER_MODELLING)
  {
    forall i | 0 <= i < |GROUND_WATER_MODELLING|
      ensures var (key, page) := GROUND_WATER_MODELLING[i];
        && page.pageId == "06" + Two(i + 1) + "00" + "_en" && page.sub == []
        && |key| >= 3 && key[..3] == Two(i + 1) + " "
    {
      if i == 0 { assert Two(1) == "01"; assert GROUND_WATER_MODELLING[0].0[..3] == "01 "; }
      else if i == 1 { assert Two(2) == "02"; assert GROUND_WATER_MODELLING[1].0[..3] == "02 "; }
      else if i == 2 { assert Two(3) == "03"; assert GROUND_WATER_MODELLING[2].0[..3] == "03 "; }
      else if i == 3 { assert Two(4) == "04"; assert GROUND_WATER_MODELLING[3].0[..3] == "04 "; }
      else { assert Two(5) == "05"; assert GROUND_WATER_MODELLING[4].0[..3] == "05 "; }
    }
  }

  lemma EmptyIds(prefix: string)
    ensures PageIdsFollow([], prefix) && Numbered([])
  {
  }

  lemma CatalogNumbered()
    ensures Numbered(CATALOG)
  {
    forall i | 0 <= i < |CATALOG| ensures |CATALOG[i].0| >= 3 && CATALOG[i].0[..3] == Two(i + 1) + " " {
      if i == 0 { assert Two(1) == "01"; assert CATALOG[0].0[..3] == "01 "; }
      else if i == 1 { assert Two(2) == "02"; assert CATALOG[1].0[..3] == "02 "; }
      else if i == 2 { assert Two(3) == "03"; assert CATALOG[2].0[..3] == "03 "; }
      else if i == 3 { assert Two(4) == "04"; assert CATALOG[3].0[..3] == "04 "; }
      else if i == 4 { assert Two(5) == "05"; assert CATALOG[4].0[..3] == "05 "; }
      else { assert Two(6) == "06"; assert CATALOG[5].0[..3] == "06 "; }
    }
  }

  lemma CatalogPageIds()
    ensures forall i :: 0 <= i < |CATALOG| ==> CATALOG[i].1.pageId == Two(i + 1) + "0000_en"
  {
    forall i | 0 <= i < |CATALOG| ensures CATALOG[i].1.pageId == Two(i + 1) + "0000_en" {
      if i == 0 { assert Two(1) == "01"; }
      else if i == 1 { assert Two(2) == "02"; }
      else if i == 2 { assert Two(3) == "03"; }
      else if i == 3 { assert Two(4) == "04"; }
      else if i == 4 { assert Two(5) == "05"; }
      else { assert Two(6) == "06"; }
    }
  }

  lemma CatalogSubIds()
    ensures forall i :: 0 <= i < |CATALOG| ==> PageIdsFollow(CATALOG[i].1.sub, Two(i + 1))
  {
    forall i | 0 <= i < |CATALOG| ensures PageIdsFollow(CATALOG[i].1.sub, Two(i + 1)) {
      if i == 0 { EmptyIds(Two(1)); }
      else if i == 1 { EmptyIds(Two(2)); }
      else if i == 2 { assert Two(3) == "03"; SoilPhysicsIds(); }
      else if i == 3 { assert Two(4) == "04"; BasicHydrogeologyIds(); }
      else if i == 4 { assert Two(5) == "05"; AppliedHydrogeologyIds(); }
      else { assert Two(6) == "06"; GroundWaterModellingIds(); }
    }
  }

  /** Each category's page id is its number followed by `0000_en`, and its subcategories follow the same rule. */
  lemma CatalogIds()
    ensures Numbered(CATALOG)
    ensures forall i :: 0 <= i < |CATALOG| ==>
      && CATALOG[i].1.pageId == Two(i + 1) + "0000_en"
      && PageIdsFollow(CATALOG[i].1.sub, Two(i + 1))
  {
    CatalogNumbered();
    CatalogPageIds();
    CatalogSubIds();
  }

  /** Labels numbered from `01` are in increasing order. */
  lemma {:induction false} NumberedIncreasing(entries: Entries)
    requires Numbered(entries) && |entries| < 99
    ensures Increasing(Keys(entries))
  {
    var ks := Keys(entries);
    forall i | 0 <= i < |ks| - 1 ensures StrLt(ks[i], ks[i + 1]) {
      KeysAt(entries, i);
      KeysAt(entries, i + 1);
      TwoLt(ks[i], ks[i + 1], i + 1);
    }
  }

  lemma TwoLt(a: string, b: string, n: nat)
    requires n + 1 < 100
    requires |a| >= 3 && a[..3] == Two(n) + " "
    requires |b| >= 3 && b[..3] == Two(n + 1) + " "
    ensures StrLt(a, b)
  {
    assert a[0] == Two(n)[0] && b[0] == Two(n + 1)[0];
    if a[0] == b[0] {
      assert a[1] == Two(n)[1] && b[1] == Two(n + 1)[1];
      assert a[1..][0] == a[1] && b[1..][0] == b[1];
    }
  }

  /** `get_categories()` lists the six categories in file order. */
  lemma CategoriesInFileOrder()
    ensures GetCategories(CATALOG) == Keys(CATALOG)
    ensures |GetCategories(CATALOG)| == 6
  {
    CatalogIds();
    NumberedIncreasing(CATALOG);
    SortKeepsSorted(Keys(CATALOG));
  }

  /** The shipped catalog has no sub-subcategories: choosing one always fails. */
  lemma SubsubAlwaysFails(category: string, subChoice: string, subsubChoice: string)
    requires subChoice != HOMEPAGE && subsubChoice != "" && subsubChoice != ATTACH
    ensures ResolvePage(CATALOG, category, subChoice, subsubChoice).Failure?
  {
    CatalogIds();
    match Find(CATALOG, category)
    case None =>
    case Some(cat) =>
      var i :| 0 <= i < |CATALOG| && CATALOG[i] == (category, cat);
      match Find(cat.sub, subChoice)
      case None =>
      case Some(sub) =>
        var j :| 0 <= j < |cat.sub| && cat.sub[j] == (subChoice, sub);
        assert sub.sub == [];
  }

  /** Every subcategory of the shipped catalog offers no sub-subcategories. */
  lemma NoSubsubcategories(category: string, subcategory: string)
    requires GetSubsubcategories(CATALOG, category, subcategory).Success?
    ensures GetSubsubcategories(CATALOG, category, subcategory).value == []
  {
    var cat := Lookup(CATALOG, category).value;
    var sub := Lookup(cat.sub, subcategory).value;
    assert GetSubsubcategories(CATALOG, category, subcategory).value == Sort(Keys(sub.sub));
    CatalogLeaf(category, cat, subcategory, sub);
  }

  /** A subcategory of the shipped catalog has no entries below it. */
  lemma CatalogLeaf(category: string, cat: Page, subcategory: string, sub: Page)
    requires (category, cat) in CATALOG && (subcategory, sub) in cat.sub
    ensures sub.sub == []
  {
    CatalogIds();
    var i :| 0 <= i < |CATALOG| && CATALOG[i] == (category, cat);
    var j :| 0 <= j < |cat.sub| && cat.sub[j] == (subcategory, sub);
  }
}
