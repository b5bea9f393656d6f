/** The dashboard's filter: a kit is shown when it matches the search text and the
    brand, grade, subline and exclusive-edition selections. */
module DashboardFilter {
  import opened Wrappers
  import opened Text
  import opened Seqs
  import opened Kits

  /** The brand buttons: "All Brands" or one brand. */
  datatype BrandFilter = AllBrands | OnlyBrand(brand: Brand)

  /** The three-way edition toggle. */
  datatype ExclusiveFilter = AllEditions | ExclusiveOnly | RegularOnly

  /** The filter selections; `None` for grade or subline is the "All" button. */
  datatype Filters = Filters(
    search: string,
    brand: BrandFilter,
    grade: Option<Grade>,
    subline: Option<Subline>,
    exclusive: ExclusiveFilter
  )

  /** The selections of a freshly opened dashboard: nothing is filtered out. */
  const NoFilters := Filters("", AllBrands, None, None, AllEditions)

  /** The lower-cased query is contained in the lower-cased model name or model number,
      or in the series, subline or brand name where the kit has one. */
  predicate MatchesSearch(k: Kit, query: string) {
    var q := ToLower(query);
    || Includes(ToLower(k.modelName), q)
    || Includes(ToLower(k.modelNumber), q)
    || (k.series.Some? && Includes(ToLower(k.series.value), q))
    || (k.subline.Some? && Includes(ToLower(SublineName(k.subline.value)), q))
    || Includes(ToLower(BrandName(k.brand)), q)
  }

  predicate MatchesBrand(k: Kit, b: BrandFilter) {
    b.AllBrands? || k.brand == b.brand
  }

  predicate MatchesGrade(k: Kit, g: Option<Grade>) {
    g.None? || k.grade == g.value
  }

  predicate MatchesSubline(k: Kit, s: Option<Subline>) {
    s.None? || k.subline == s
  }

  predicate MatchesExclusive(k: Kit, e: ExclusiveFilter) {
    match e
    case AllEditions => true
    case ExclusiveOnly => k.exclusive
    case RegularOnly => !k.exclusive
  }

  predicate Matches(k: Kit, f: Filters) {
    && MatchesSearch(k, f.search)
    && MatchesBrand(k, f.brand)
    && MatchesGrade(k, f.grade)
    && MatchesSubline(k, f.subline)
    && MatchesExclusive(k, f.exclusive)
  }

  /** The kits the table lists before any sorting. */
  function FilterKits(kits: seq<Kit>, f: Filters): seq<Kit> {
    Filter(kits, k => Matches(k, f))
  }

  /** The filtered list holds exactly the matching kits, in their original relative order. */
  lemma FilterKitsSpec(kits: seq<Kit>, f: Filters)
    ensures forall k :: k in FilterKits(kits, f) <==> k in kits && Matches(k, f)
    ensures IsSubsequence(FilterKits(kits, f), kits)
  {
    FilterIsSubsequence(kits, k => Matches(k, f));
  }

  /** The text fields the search looks into: model name, model number, the series and
      the subline when present, and the brand. */
  function SearchFields(k: Kit): seq<string> {
    [k.modelName, k.modelNumber]
    + (if k.series.Some? then [k.series.value] else [])
    + (if k.subline.Some? then [SublineName(k.subline.value)] else [])
    + [BrandName(k.brand)]
  }

  /** A kit matches the search exactly when the lower-cased query occurs, at some
      position, in one of its lower-cased search fields. */
  lemma MatchesSearchIff(k: Kit, query: string)
    ensures MatchesSearch(k, query) <==>
      exists j, i :: 0 <= j < |SearchFields(k)| && OccursAt(ToLower(SearchFields(k)[j]), ToLower(query), i)
  {
    var q := ToLower(query);
    var fields := SearchFields(k);
    MatchesSearchFields(k, query);
    forall j | 0 <= j < |fields|
      ensures Includes(ToLower(fields[j]), q) <==> exists i :: OccursAt(ToLower(fields[j]), q, i)
    {
      IncludesAt(ToLower(fields[j]), q);
    }
  }

  lemma MatchesSearchFields(k: Kit, query: string)
    ensures MatchesSearch(k, query) <==>
      exists j :: 0 <= j < |SearchFields(k)| && Includes(ToLower(SearchFields(k)[j]), ToLower(query))
  {
    var fields := SearchFields(k);
    var n := |fields|;
    assert fields[0] == k.modelName && fields[1] == k.modelNumber;
    assert fields[n - 1] == BrandName(k.brand);
    if k.series.Some? {
      assert fields[2] == k.series.value;
    }
    if k.subline.Some? {
      assert fields[n - 2] == SublineName(k.subline.value);
    }
    assert forall j :: 0 <= j < n ==>
      || fields[j] == k.modelName
      || fields[j] == k.modelNumber
      || (k.series.Some? && fields[j] == k.series.value)
      || (k.subline.Some? && fields[j] == SublineName(k.subline.value))
      || fields[j] == BrandName(k.brand);
  }

  /** Upper or lower case in the query makes no difference. */
  lemma SearchIgnoresQueryCase(k: Kit, query: string)
    ensures MatchesSearch(k, query) <==> MatchesSearch(k, ToLower(query))
  {
    ToLowerIdempotent(query);
  }

  /** An empty query matches every kit. */
  lemma EmptySearchMatches(k: Kit)
    ensures MatchesSearch(k, "")
  {
    IncludesEmpty(ToLower(k.modelName));
  }

  /** With the initial selections the whole collection is listed. */
  lemma NoFiltersKeepAll(kits: seq<Kit>)
    ensures FilterKits(kits, NoFilters) == kits
  {
    forall k | k in kits
      ensures Matches(k, NoFilters)
    {
      EmptySearchMatches(k);
    }
    FilterAllPass(kits, k => Matches(k, NoFilters));
  }

  /** Choosing one brand narrows the "All Brands" list to the kits of that brand,
      keeping their order. */
  lemma SelectBrandNarrows(kits: seq<Kit>, f: Filters, b: Brand)
    ensures FilterKits(kits, f.(brand := OnlyBrand(b)))
         == Filter(FilterKits(kits, f.(brand := AllBrands)), (k: Kit) => k.brand == b)
  {
    var all := f.(brand := AllBrands);
    var one := f.(brand := OnlyBrand(b));
    FilterRefine(kits, k => Matches(k, one), k => Matches(k, all), (k: Kit) => k.brand == b);
  }
}
