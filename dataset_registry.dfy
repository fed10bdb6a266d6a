/** The registry of published datasets and its lookup, category filter and text search. */
module DatasetRegistry {
  import opened Wrappers
  import opened Strings
  import opened Seqs
  import opened DatasetTypes

  /** The registered datasets, one constructor each. */
  datatype Entry =
    | PopulationTotal
    | PopulationDemographics
    | BirthsDeaths
    | GdpRegional
    | ForeignTrade
    | EmploymentRate
    | UnemploymentRate
    | AverageWages
    | PovertyRate
    | EducationEnrollment
    | RegionalDevelopment
    | TourismAccommodations
    | GovernmentBudget

  /** The declaration order of the registry. */
  function Entries(): seq<Entry>
  {
    [PopulationTotal, PopulationDemographics, BirthsDeaths, GdpRegional, ForeignTrade, EmploymentRate, UnemploymentRate, AverageWages, PovertyRate, EducationEnrollment, RegionalDevelopment, TourismAccommodations, GovernmentBudget]
  }

  /** The `id` of each entry. */
  function IdOf(e: Entry): string
  {
    match e
    case PopulationTotal => "population-total"
    case PopulationDemographics => "population-demographics"
    case BirthsDeaths => "births-deaths"
    case GdpRegional => "gdp-regional"
    case ForeignTrade => "foreign-trade"
    case EmploymentRate => "employment-rate"
    case UnemploymentRate => "unemployment-rate"
    case AverageWages => "average-wages"
    case PovertyRate => "poverty-rate"
    case EducationEnrollment => "education-enrollment"
    case RegionalDevelopment => "regional-development"
    case TourismAccommodations => "tourism-accommodations"
    case GovernmentBudget => "government-budget"
  }

  /** The statistics-office code of each entry. */
  function NsiIdOf(e: Entry): string
  {
    match e
    case PopulationTotal => "1.1.1.1"
    case PopulationDemographics => "1942"
    case BirthsDeaths => "1.1.3.1"
    case GdpRegional => "2.1.1.1"
    case ForeignTrade => "4.1.1.1"
    case EmploymentRate => "3.1.1.1"
    case UnemploymentRate => "3.1.2.1"
    case AverageWages => "3.2.1.1"
    case PovertyRate => "5.1.1.1"
    case EducationEnrollment => "6.1.1.1"
    case RegionalDevelopment => "7.1.1.1"
    case TourismAccommodations => "8.1.1.1"
    case GovernmentBudget => "9.1.1.1"
  }

  /** The title of each entry. */
  function TitleOf(e: Entry): Localized
  {
    match e
    case PopulationTotal => Localized("Население по области и общини",
      "Population by Districts and Municipalities")
    case PopulationDemographics => Localized("Население по статистически райони, възраст, местоживеене и пол",
      "Population by districts, municipalities, place of residence and sex")
    case BirthsDeaths => Localized("Раждания и смъртност",
      "Births and Deaths")
    case GdpRegional => Localized("БВП по области",
      "GDP by Districts")
    case ForeignTrade => Localized("Външна търговия",
      "Foreign Trade")
    case EmploymentRate => Localized("Коефициент на заетост",
      "Employment Rate")
    case UnemploymentRate => Localized("Коефициент на безработица",
      "Unemployment Rate")
    case AverageWages => Localized("Средна месечна работна заплата",
      "Average Monthly Salary")
    case PovertyRate => Localized("Относителен дял на бедните",
      "Relative Share of Poor Population")
    case EducationEnrollment => Localized("Учащи в учебни заведения",
      "Students in Educational Institutions")
    case RegionalDevelopment => Localized("Индекс на регионално развитие",
      "Regional Development Index")
    case TourismAccommodations => Localized("Туристически посещения",
      "Tourist Visits")
    case GovernmentBudget => Localized("Консолидиран бюджет",
      "Consolidated Budget")
  }

  /** The description of each entry. */
  function DescriptionOf(e: Entry): Localized
  {
    match e
    case PopulationTotal => Localized("Общ брой на населението по статистически райони, области и общини",
      "Total population by statistical regions, districts and municipalities")
    case PopulationDemographics => Localized("Подробна демографска статистика на населението по NUTS региони, възрастови групи, градско/селско население и пол",
      "Detailed demographic statistics by NUTS regions, age groups, urban/rural residence and sex")
    case BirthsDeaths => Localized("Живородени и умрели по статистически райони и области",
      "Live births and deaths by statistical regions and districts")
    case GdpRegional => Localized("Брутен вътрешен продукт по статистически райони и области",
      "Gross Domestic Product by statistical regions and districts")
    case ForeignTrade => Localized("Износ и внос на стоки по месеци",
      "Export and import of goods by months")
    case EmploymentRate => Localized("Коефициент на заетост на населението на възраст 15+ години",
      "Employment rate of population aged 15+ years")
    case UnemploymentRate => Localized("Коефициент на безработица на населението на възраст 15+ години",
      "Unemployment rate of population aged 15+ years")
    case AverageWages => Localized("Средна месечна работна заплата на наетите лица по икономически дейности",
      "Average monthly salary of employees by economic activities")
    case PovertyRate => Localized("Относителен дял на бедните по статистически райони",
      "Relative share of poor population by statistical regions")
    case EducationEnrollment => Localized("Брой на учащите по вид на учебното заведение",
      "Number of students by type of educational institution")
    case RegionalDevelopment => Localized("Индекс на регионално развитие по области",
      "Regional development index by districts")
    case TourismAccommodations => Localized("Брой на пренощувалите лица в местата за настаняване",
      "Number of nights spent in accommodation establishments")
    case GovernmentBudget => Localized("Приходи и разходи на консолидирания бюджет",
      "Revenues and expenditures of the consolidated budget")
  }

  /** The category and subcategory of each entry. */
  function CategoryOf(e: Entry): (string, string)
  {
    match e
    case PopulationTotal => ("demographics", "population")
    case PopulationDemographics => ("demographics", "population-demographics")
    case BirthsDeaths => ("demographics", "vital-statistics")
    case GdpRegional => ("economy", "gdp")
    case ForeignTrade => ("economy", "trade")
    case EmploymentRate => ("labor", "employment")
    case UnemploymentRate => ("labor", "unemployment")
    case AverageWages => ("labor", "wages")
    case PovertyRate => ("social", "poverty")
    case EducationEnrollment => ("social", "education")
    case RegionalDevelopment => ("regional", "development")
    case TourismAccommodations => ("sectoral", "tourism")
    case GovernmentBudget => ("finance", "budget")
  }

  function DatasetOf(e: Entry): Dataset
  {
    Dataset(IdOf(e), NsiIdOf(e), TitleOf(e), DescriptionOf(e), CategoryOf(e).0, CategoryOf(e).1)
  }

  /** The registry, in declaration order (only the fields the lookups read). */
  function Registry(): seq<Dataset>
  {
    seq(|Entries()|, i requires 0 <= i < |Entries()| => DatasetOf(Entries()[i]))
  }

  /** The ids of a dataset list, in order. */
  function Ids(ds: seq<Dataset>): (ids: seq<string>)
    ensures |ids| == |ds|
    ensures forall i :: 0 <= i < |ds| ==> ids[i] == ds[i].id
  {
    if ds == [] then [] else [ds[0].id] + Ids(ds[1..])
  }

  /** No id is used twice in a list. */
  predicate UniqueIds(ds: seq<Dataset>)
  {
    forall i, j :: 0 <= i < j < |ds| ==> ds[i].id != ds[j].id
  }

  lemma UniqueIdsDistinct(ds: seq<Dataset>)
    requires UniqueIds(ds)
    ensures NoDuplicates(Ids(ds)) && NoDuplicates(ds)
  {
    assert forall i, j :: 0 <= i < j < |ds| ==> ds[i] != ds[j] by {
      forall i, j | 0 <= i < j < |ds| ensures ds[i] != ds[j] {
        assert ds[i].id != ds[j].id;
      }
    }
  }

  /** Entries with different constructors have different ids. */
  lemma IdsInjective(e1: Entry, e2: Entry)
    ensures e1 != e2 ==> IdOf(e1) != IdOf(e2)
  {
  }

  /** No entry is declared twice, so no id is used twice. */
  lemma EntryIdsUnique()
    ensures |Entries()| == 13
    ensures forall i, j :: 0 <= i < j < |Entries()| ==> IdOf(Entries()[i]) != IdOf(Entries()[j])
  {
    var es := Entries();
    assert NoDuplicates(es);
    forall i, j | 0 <= i < j < |es| ensures IdOf(es[i]) != IdOf(es[j]) {
      IdsInjective(es[i], es[j]);
    }
  }

  /** The registry holds thirteen datasets, no id twice (and so no dataset twice). */
  lemma RegistryIds()
    ensures |Registry()| == 13
    ensures UniqueIds(Registry())
    ensures NoDuplicates(Ids(Registry()))
    ensures NoDuplicates(Registry())
  {
    RegistryUniqueIds();
    UniqueIdsDistinct(Registry());
  }

  lemma RegistryUniqueIds()
    ensures |Registry()| == 13
    ensures UniqueIds(Registry())
  {
    EntryIdsUnique();
    RegistryIdsAt();
  }

  lemma RegistryIdsAt()
    ensures |Registry()| == |Entries()|
    ensures forall i :: 0 <= i < |Entries()| ==> Registry()[i].id == IdOf(Entries()[i])
  {
  }

  /** `find(dataset => dataset.id === id)` over a given list: the first dataset with the id. */
  function FindById(ds: seq<Dataset>, id: string): (r: Option<Dataset>)
    ensures r.None? <==> id !in Ids(ds)
    ensures r.Some? ==> r.value == ds[IndexOf(Ids(ds), id)] && r.value.id == id
  {
    if ds == [] then None
    else if ds[0].id == id then Some(ds[0])
    else FindById(ds[1..], id)
  }

  /** getDatasetById. */
  function GetDatasetById(id: string): Option<Dataset>
  {
    FindById(Registry(), id)
  }

  /** In a list without repeated ids, the lookup returns the one dataset with the id, or nothing when none has it. */
  lemma FindByIdExact(ds: seq<Dataset>, id: string)
    requires UniqueIds(ds)
    ensures FindById(ds, id).None? <==> forall i :: 0 <= i < |ds| ==> ds[i].id != id
    ensures forall i :: 0 <= i < |ds| && ds[i].id == id ==> FindById(ds, id) == Some(ds[i])
  {
    UniqueIdsDistinct(ds);
    forall i | 0 <= i < |ds| && ds[i].id == id ensures FindById(ds, id) == Some(ds[i]) {
      assert Ids(ds)[i] == id;
      assert IndexOf(Ids(ds), id) == i;
    }
    if FindById(ds, id).None? {
      forall i | 0 <= i < |ds| ensures ds[i].id != id {
        assert Ids(ds)[i] == ds[i].id;
      }
    }
  }

  /** getDatasetById returns the one registered dataset with the id (and nothing only when no id matches, by FindById). */
  lemma GetDatasetByIdExact(id: string)
    ensures forall i :: 0 <= i < |Registry()| && Registry()[i].id == id ==> GetDatasetById(id) == Some(Registry()[i])
  {
    RegistryUniqueIds();
    FindByIdExact(Registry(), id);
  }

  /** The datasets of a list that belong to a category, in list order. */
  function InCategory(ds: seq<Dataset>, categoryId: string): (r: seq<Dataset>)
    ensures forall d :: d in r <==> d in ds && d.category == categoryId
    ensures NoDuplicates(ds) ==> forall i, j :: 0 <= i < j < |r| ==> IndexOf(ds, r[i]) < IndexOf(ds, r[j])
  {
    var p := (d: Dataset) => d.category == categoryId;
    if NoDuplicates(ds) then FilterKeepsOrder(ds, p); Filter(ds, p) else Filter(ds, p)
  }

  /** getDatasetsByCategory. */
  function GetDatasetsByCategory(categoryId: string): seq<Dataset>
  {
    InCategory(Registry(), categoryId)
  }

  /** getDatasetsByCategory returns exactly the registered datasets of the category. */
  lemma GetDatasetsByCategoryExact(categoryId: string)
    ensures forall d :: d in GetDatasetsByCategory(categoryId) <==> d in Registry() && d.category == categoryId
  {
  }

  /** getDatasetsByCategory keeps registry order. */
  lemma GetDatasetsByCategoryInOrder(categoryId: string)
    ensures var r := GetDatasetsByCategory(categoryId);
      forall i, j :: 0 <= i < j < |r| ==> IndexOf(Registry(), r[i]) < IndexOf(Registry(), r[j])
  {
    RegistryIds();
  }

  /** getAllDatasets: the whole registry, as declared. */
  function GetAllDatasets(): (r: seq<Dataset>)
    ensures r == Registry()
    ensures |r| == 13 && UniqueIds(r) && NoDuplicates(Ids(r))
  {
    RegistryIds();
    Registry()
  }

  /** The lower-cased title or description for the locale contains the lower-cased query. */
  predicate Mentions(d: Dataset, lowerQuery: string, locale: Locale)
  {
    Contains(ToLower(d.title.In(locale)), lowerQuery) || Contains(ToLower(d.description.In(locale)), lowerQuery)
  }

  /** The datasets of a list that mention the lower-cased query, in list order. */
  function Search(ds: seq<Dataset>, lowerQuery: string, locale: Locale): (r: seq<Dataset>)
    ensures forall d :: d in r <==> d in ds && Mentions(d, lowerQuery, locale)
    ensures NoDuplicates(ds) ==> forall i, j :: 0 <= i < j < |r| ==> IndexOf(ds, r[i]) < IndexOf(ds, r[j])
  {
    var p := (d: Dataset) => Mentions(d, lowerQuery, locale);
    if NoDuplicates(ds) then FilterKeepsOrder(ds, p); Filter(ds, p) else Filter(ds, p)
  }

  /** searchDatasets. */
  function SearchDatasets(query: string, locale: Locale): seq<Dataset>
  {
    Search(Registry(), ToLower(query), locale)
  }

  /** searchDatasets returns exactly the registered datasets mentioning the query. */
  lemma SearchDatasetsExact(query: string, locale: Locale)
    ensures forall d :: d in SearchDatasets(query, locale) <==> d in Registry() && Mentions(d, ToLower(query), locale)
  {
  }

  /** searchDatasets keeps registry order. */
  lemma SearchDatasetsInOrder(query: string, locale: Locale)
    ensures var r := SearchDatasets(query, locale);
      forall i, j :: 0 <= i < j < |r| ==> IndexOf(Registry(), r[i]) < IndexOf(Registry(), r[j])
  {
    RegistryIds();
  }

  /** An empty query matches every dataset of a list: the search returns the list. */
  lemma EmptyQueryMatches(ds: seq<Dataset>, locale: Locale)
    ensures Search(ds, ToLower(""), locale) == ds
  {
    var p := (d: Dataset) => Mentions(d, ToLower(""), locale);
    forall d | d in ds ensures p(d) {
      ContainsEmpty(ToLower(d.title.In(locale)));
    }
    FilterAll(ds, p);
  }

  /** An empty query matches every dataset: the search returns the whole registry. */
  lemma EmptyQueryMatchesAll(locale: Locale)
    ensures SearchDatasets("", locale) == Registry()
  {
    EmptyQueryMatches(Registry(), locale);
  }

  /** The search is case-insensitive in the query. */
  lemma SearchIgnoresQueryCase(query: string, locale: Locale)
    ensures SearchDatasets(ToLower(query), locale) == SearchDatasets(query, locale)
  {
    ToLowerIdempotent(query);
  }
}
