/**
 * The search behind the search box: a lookup from `category::subcategory` to the two
 * localized names, and a scan of the registry that keeps the first ten datasets whose
 * texts mention the query.
 */
module DatasetSearch {
  import opened Wrappers
  import opened Strings
  import opened Seqs
  import opened DatasetTypes
  import opened Categories
  import opened DatasetRegistry

  /** The names shown beside a hit. */
  datatype Names = Names(categoryName: string, subcategoryName: string)

  datatype SearchResult = SearchResult(dataset: Dataset, categoryName: string, subcategoryName: string, href: string)

  /** `${cat.id}::${sub.id}`. */
  function LookupKey(categoryId: string, subcategoryId: string): string
  {
    categoryId + "::" + subcategoryId
  }

  /** The entries one category contributes, in subcategory order, over m. */
  function AddSubcategories(m: map<string, Names>, cat: Category, subs: seq<Subcategory>, locale: Locale): map<string, Names>
  {
    if subs == [] then m
    else
      var last := subs[|subs| - 1];
      AddSubcategories(m, cat, subs[..|subs| - 1], locale)[LookupKey(cat.id, last.id) := Names(cat.name.In(locale), last.name.In(locale))]
  }

  /** The lookup map for a category list: every subcategory of every category, later entries overwriting earlier ones. */
  function LookupMap(cats: seq<Category>, locale: Locale): map<string, Names>
  {
    if cats == [] then map[]
    else
      var last := cats[|cats| - 1];
      AddSubcategories(LookupMap(cats[..|cats| - 1], locale), last, last.subcategories, locale)
  }

  /** The lookup of the search hook: nested loops over categories and their subcategories. */
  method BuildLookupMap(cats: seq<Category>, locale: Locale) returns (m: map<string, Names>)
    ensures m == LookupMap(cats, locale)
  {
    m := map[];
    for i := 0 to |cats|
      invariant m == LookupMap(cats[..i], locale)
    {
      var cat := cats[i];
      ghost var before := m;
      for j := 0 to |cat.subcategories|
        invariant m == AddSubcategories(before, cat, cat.subcategories[..j], locale)
      {
        var sub := cat.subcategories[j];
        assert cat.subcategories[..j + 1][..j] == cat.subcategories[..j];
        m := m[LookupKey(cat.id, sub.id) := Names(cat.name.In(locale), sub.name.In(locale))];
      }
      assert cat.subcategories[..|cat.subcategories|] == cat.subcategories;
      assert cats[..i + 1][..i] == cats[..i];
    }
    assert cats[..|cats|] == cats;
  }

  /** A key of the lookup map comes from a subcategory of a category; a category without subcategories adds none. */
  lemma {:induction false} AddSubcategoriesKeys(m: map<string, Names>, cat: Category, subs: seq<Subcategory>, locale: Locale, k: string)
    ensures k in AddSubcategories(m, cat, subs, locale) <==>
      k in m || exists j :: 0 <= j < |subs| && k == LookupKey(cat.id, subs[j].id)
  {
    if subs != [] {
      var p := subs[..|subs| - 1];
      AddSubcategoriesKeys(m, cat, p, locale, k);
      if exists j :: 0 <= j < |p| && k == LookupKey(cat.id, p[j].id) {
        var j :| 0 <= j < |p| && k == LookupKey(cat.id, p[j].id);
        assert subs[j] == p[j];
      }
      if exists j :: 0 <= j < |subs| && k == LookupKey(cat.id, subs[j].id) {
        var j :| 0 <= j < |subs| && k == LookupKey(cat.id, subs[j].id);
        if j < |p| {
          assert p[j] == subs[j];
        }
      }
    }
  }

  /** The lookup keys are exactly `cat.id::sub.id` for the subcategories of the listed categories. */
  lemma {:induction false} LookupMapKeys(cats: seq<Category>, locale: Locale, k: string)
    ensures k in LookupMap(cats, locale) <==>
      exists i, j :: 0 <= i < |cats| && 0 <= j < |cats[i].subcategories| && k == LookupKey(cats[i].id, cats[i].subcategories[j].id)
  {
    if cats != [] {
      var p := cats[..|cats| - 1];
      var last := cats[|cats| - 1];
      LookupMapKeys(p, locale, k);
      AddSubcategoriesKeys(LookupMap(p, locale), last, last.subcategories, locale, k);
      if exists i, j :: 0 <= i < |p| && 0 <= j < |p[i].subcategories| && k == LookupKey(p[i].id, p[i].subcategories[j].id) {
        var i, j :| 0 <= i < |p| && 0 <= j < |p[i].subcategories| && k == LookupKey(p[i].id, p[i].subcategories[j].id);
        assert cats[i] == p[i];
      }
      if exists i, j :: 0 <= i < |cats| && 0 <= j < |cats[i].subcategories| && k == LookupKey(cats[i].id, cats[i].subcategories[j].id) {
        var i, j :| 0 <= i < |cats| && 0 <= j < |cats[i].subcategories| && k == LookupKey(cats[i].id, cats[i].subcategories[j].id);
        if i < |p| {
          assert p[i] == cats[i];
        }
      }
    }
  }

  /** With the category table as shipped, which lists no subcategories, the lookup map is empty. */
  lemma ShippedLookupMapEmpty(locale: Locale)
    ensures LookupMap(AllCategories(), locale) == map[]
  {
    NoSubcategories();
    forall k | k in LookupMap(AllCategories(), locale) ensures false {
      LookupMapKeys(AllCategories(), locale, k);
    }
  }

  /** `/${locale}/category/${dataset.category}/${dataset.subcategory}`. */
  function Href(locale: Locale, d: Dataset): string
  {
    "/" + LocaleCode(locale) + "/category/" + d.category + "/" + d.subcategory
  }

  /** The dataset's title, description, category name or subcategory name, lower-cased, contains the query. */
  predicate Hits(d: Dataset, names: Names, lower: string, locale: Locale)
  {
    || Contains(ToLower(d.title.In(locale)), lower)
    || Contains(ToLower(d.description.In(locale)), lower)
    || Contains(ToLower(names.categoryName), lower)
    || Contains(ToLower(names.subcategoryName), lower)
  }

  /** The dataset is listed in the lookup and its texts mention the query. */
  predicate Found(d: Dataset, lookup: map<string, Names>, lower: string, locale: Locale)
  {
    var key := LookupKey(d.category, d.subcategory);
    key in lookup && Hits(d, lookup[key], lower, locale)
  }

  /** The result shown for a dataset listed in the lookup. */
  function ResultFor(d: Dataset, lookup: map<string, Names>, locale: Locale): SearchResult
    requires LookupKey(d.category, d.subcategory) in lookup
  {
    var names := lookup[LookupKey(d.category, d.subcategory)];
    SearchResult(d, names.categoryName, names.subcategoryName, Href(locale, d))
  }

  /** Every match of the scan, in dataset order. */
  function Matches(datasets: seq<Dataset>, lookup: map<string, Names>, lower: string, locale: Locale): (r: seq<SearchResult>)
    ensures |r| <= |datasets|
  {
    if datasets == [] then []
    else
      var rest := Matches(datasets[..|datasets| - 1], lookup, lower, locale);
      var d := datasets[|datasets| - 1];
      if Found(d, lookup, lower, locale) then rest + [ResultFor(d, lookup, locale)] else rest
  }

  /** The search: nothing for a trimmed query shorter than two characters, else the first ten matches. */
  function Search(query: string, locale: Locale, datasets: seq<Dataset>, lookup: map<string, Names>): seq<SearchResult>
  {
    var trimmed := Trim(query);
    if |trimmed| < 2 then [] else Take(Matches(datasets, lookup, ToLower(trimmed), locale), 10)
  }

  lemma {:induction false} MatchesPrefix(datasets: seq<Dataset>, lookup: map<string, Names>, lower: string, locale: Locale, n: nat)
    requires n <= |datasets|
    ensures Matches(datasets[..n], lookup, lower, locale) <= Matches(datasets, lookup, lower, locale)
  {
    if n < |datasets| {
      var p := datasets[..|datasets| - 1];
      assert datasets[..n] == p[..n];
      MatchesPrefix(p, lookup, lower, locale, n);
    } else {
      assert datasets[..n] == datasets;
    }
  }

  /** The search hook: nothing for a short query, else the scan below over the lower-cased, trimmed query. */
  method UseDatasetSearch(query: string, locale: Locale, datasets: seq<Dataset>, lookup: map<string, Names>)
    returns (matched: seq<SearchResult>)
    ensures matched == Search(query, locale, datasets, lookup)
    ensures |matched| <= 10
    ensures forall r :: r in matched ==> r.href == Href(locale, r.dataset)
  {
    var trimmed := Trim(query);
    if |trimmed| < 2 {
      return [];
    }
    matched := ScanDatasets(datasets, lookup, ToLower(trimmed), locale);
    MatchesHref(datasets, lookup, ToLower(trimmed), locale);
  }

  /** The loop of the search hook: stop at ten matches, skip datasets missing from the lookup. */
  method ScanDatasets(datasets: seq<Dataset>, lookup: map<string, Names>, lower: string, locale: Locale)
    returns (matched: seq<SearchResult>)
    ensures matched == Take(Matches(datasets, lookup, lower, locale), 10)
  {
    matched := [];
    var i := 0;
    while i < |datasets|
      invariant 0 <= i <= |datasets|
      invariant matched == Matches(datasets[..i], lookup, lower, locale)
      invariant |matched| <= 10
    {
      if |matched| >= 10 {
        break;
      }
      var hit := CheckDataset(datasets[i], lookup, lower, locale);
      if hit.Some? {
        MatchesAdd(datasets, lookup, lower, locale, i);
        matched := matched + [hit.value];
      } else {
        MatchesSkip(datasets, lookup, lower, locale, i);
      }
      i := i + 1;
    }
    StopsAtTen(datasets, lookup, lower, locale, i);
  }

  /** The loop body for one dataset: skip it when the lookup misses its key, else test its texts. */
  method CheckDataset(dataset: Dataset, lookup: map<string, Names>, lower: string, locale: Locale)
    returns (hit: Option<SearchResult>)
    ensures hit.Some? <==> Found(dataset, lookup, lower, locale)
    ensures hit.Some? ==> LookupKey(dataset.category, dataset.subcategory) in lookup
    ensures hit.Some? ==> hit.value == ResultFor(dataset, lookup, locale)
  {
    var key := LookupKey(dataset.category, dataset.subcategory);
    if key !in lookup {
      return None;
    }
    var names := lookup[key];
    if Hits(dataset, names, lower, locale) {
      return Some(SearchResult(dataset, names.categoryName, names.subcategoryName, Href(locale, dataset)));
    }
    return None;
  }

  /** Where the loop stops, after the last dataset or at ten matches, it holds the first ten matches. */
  lemma StopsAtTen(datasets: seq<Dataset>, lookup: map<string, Names>, lower: string, locale: Locale, i: nat)
    requires i <= |datasets|
    requires |Matches(datasets[..i], lookup, lower, locale)| <= 10
    requires i == |datasets| || |Matches(datasets[..i], lookup, lower, locale)| == 10
    ensures Matches(datasets[..i], lookup, lower, locale) == Take(Matches(datasets, lookup, lower, locale), 10)
  {
    MatchesPrefix(datasets, lookup, lower, locale, i);
    if i == |datasets| {
      assert datasets[..i] == datasets;
    }
  }

  /** A dataset that is not found leaves the matches as they were. */
  lemma MatchesSkip(datasets: seq<Dataset>, lookup: map<string, Names>, lower: string, locale: Locale, i: nat)
    requires i < |datasets| && !Found(datasets[i], lookup, lower, locale)
    ensures Matches(datasets[..i + 1], lookup, lower, locale) == Matches(datasets[..i], lookup, lower, locale)
  {
    assert datasets[..i + 1][..i] == datasets[..i];
  }

  /** A dataset that is found adds its result at the end. */
  lemma MatchesAdd(datasets: seq<Dataset>, lookup: map<string, Names>, lower: string, locale: Locale, i: nat)
    requires i < |datasets| && Found(datasets[i], lookup, lower, locale)
    ensures Matches(datasets[..i + 1], lookup, lower, locale) ==
      Matches(datasets[..i], lookup, lower, locale) + [ResultFor(datasets[i], lookup, locale)]
  {
    assert datasets[..i + 1][..i] == datasets[..i];
  }

  /** Every match links to `/{locale}/category/{category}/{subcategory}` of its dataset. */
  lemma {:induction false} MatchesHref(datasets: seq<Dataset>, lookup: map<string, Names>, lower: string, locale: Locale)
    ensures forall r :: r in Matches(datasets, lookup, lower, locale) ==> r.href == Href(locale, r.dataset)
  {
    if datasets != [] {
      MatchesHref(datasets[..|datasets| - 1], lookup, lower, locale);
    }
  }

  /** A dataset is among the matches exactly when the lookup lists it and its texts mention the query. */
  lemma {:induction false} MatchesExactly(datasets: seq<Dataset>, lookup: map<string, Names>, lower: string, locale: Locale)
    ensures forall r :: r in Matches(datasets, lookup, lower, locale) ==>
      r.dataset in datasets && Found(r.dataset, lookup, lower, locale) && r == ResultFor(r.dataset, lookup, locale)
    ensures forall d :: d in datasets && Found(d, lookup, lower, locale) ==>
      ResultFor(d, lookup, locale) in Matches(datasets, lookup, lower, locale)
  {
    if datasets != [] {
      var p := datasets[..|datasets| - 1];
      MatchesExactly(p, lookup, lower, locale);
      assert forall d :: d in datasets <==> d in p || d == datasets[|datasets| - 1];
    }
  }

  /** A query that trims to fewer than two characters finds nothing. */
  lemma ShortQueryFindsNothing(query: string, locale: Locale, datasets: seq<Dataset>, lookup: map<string, Names>)
    requires |Trim(query)| < 2
    ensures Search(query, locale, datasets, lookup) == []
  {
  }

  /**
   * The results are the first ten matches: each result is a dataset the lookup lists and whose
   * texts mention the trimmed, lower-cased query; with fewer than ten matches, every match is returned.
   */
  lemma SearchResults(query: string, locale: Locale, datasets: seq<Dataset>, lookup: map<string, Names>)
    requires |Trim(query)| >= 2
    ensures var lower := ToLower(Trim(query));
      var r := Search(query, locale, datasets, lookup);
      && r <= Matches(datasets, lookup, lower, locale)
      && |r| == Min(10, |Matches(datasets, lookup, lower, locale)|)
      && (forall x :: x in r ==> x.dataset in datasets && Found(x.dataset, lookup, lower, locale))
      && (|Matches(datasets, lookup, lower, locale)| <= 10 ==>
            forall d :: d in datasets && Found(d, lookup, lower, locale) ==> ResultFor(d, lookup, locale) in r)
  {
    var lower := ToLower(Trim(query));
    MatchesExactly(datasets, lookup, lower, locale);
  }

  /** A dataset whose `category::subcategory` is not in the lookup is never returned. */
  lemma UnlistedNeverReturned(query: string, locale: Locale, datasets: seq<Dataset>, lookup: map<string, Names>, r: SearchResult)
    requires r in Search(query, locale, datasets, lookup)
    ensures LookupKey(r.dataset.category, r.dataset.subcategory) in lookup
  {
    var trimmed := Trim(query);
    MatchesExactly(datasets, lookup, ToLower(trimmed), locale);
  }

  /** The search as the hook runs it: over the registry, with the lookup built from the category table. */
  method SearchRegistry(query: string, locale: Locale) returns (results: seq<SearchResult>)
    ensures results == Search(query, locale, GetAllDatasets(), LookupMap(AllCategories(), locale))
  {
    var lookup := BuildLookupMap(AllCategories(), locale);
    results := UseDatasetSearch(query, locale, GetAllDatasets(), lookup);
  }

  /** With an empty lookup map, nothing is ever found. */
  lemma EmptyLookupFindsNothing(query: string, locale: Locale, datasets: seq<Dataset>)
    ensures Search(query, locale, datasets, map[]) == []
  {
    var trimmed := Trim(query);
    if |trimmed| >= 2 {
      NoMatchesWithoutLookup(datasets, ToLower(trimmed), locale);
    }
  }

  lemma {:induction false} NoMatchesWithoutLookup(datasets: seq<Dataset>, lower: string, locale: Locale)
    ensures Matches(datasets, map[], lower, locale) == []
  {
    if datasets != [] {
      NoMatchesWithoutLookup(datasets[..|datasets| - 1], lower, locale);
    }
  }

  /** With the shipped tables, whose categories list no subcategories, the search never returns anything. */
  lemma ShippedSearchIsEmpty(query: string, locale: Locale)
    ensures Search(query, locale, GetAllDatasets(), LookupMap(AllCategories(), locale)) == []
  {
    ShippedLookupMapEmpty(locale);
    EmptyLookupFindsNothing(query, locale, GetAllDatasets());
  }
}
