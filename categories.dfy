/** The fixed table of top-level dataset categories and its two lookups. */
module Categories {
  import opened Wrappers
  import opened Seqs
  import opened DatasetTypes

  /** A subcategory: the search's lookup table reads its id and name. */
  datatype Subcategory = Subcategory(id: string, name: Localized)

  /** A category; none of the shipped ones lists subcategories. */
  datatype Category = Category(
    id: string,
    name: Localized,
    description: Localized,
    icon: string,
    color: string,
    subcategories: seq<Subcategory>)

  /** The shipped categories, one constructor each. */
  datatype Topic = Demographics | Economy | Labor | Social | Regional | Sectoral | Finance

  /** The declaration order of the table. */
  function Topics(): seq<Topic>
  {
    [Demographics, Economy, Labor, Social, Regional, Sectoral, Finance]
  }

  /** The table entry of each topic. */
  function CategoryOf(t: Topic): Category
  {
    Category(TopicId(t), NameOf(t), DescriptionOf(t), IconOf(t), ColorOf(t), [])
  }

  function NameOf(t: Topic): Localized
  {
    match t
    case Demographics => Localized("Демография", "Demographics")
    case Economy => Localized("Икономика", "Economy")
    case Labor => Localized("Труд и Заетост", "Labor & Employment")
    case Social => Localized("Социални Показатели", "Social Indicators")
    case Regional => Localized("Регионална Статистика", "Regional Statistics")
    case Sectoral => Localized("Отраслова Статистика", "Sectoral Statistics")
    case Finance => Localized("Финанси", "Finance")
  }

  function DescriptionOf(t: Topic): Localized
  {
    match t
    case Demographics => Localized("Население, раждаемост, смъртност, миграция", "Population, births, deaths, migration")
    case Economy => Localized("БВП, бизнес статистика, външна търговия", "GDP, business statistics, foreign trade")
    case Labor => Localized("Заетост, безработица, заплати", "Employment, unemployment, wages")
    case Social => Localized("Доходи, бедност, образование, здравеопазване", "Income, poverty, education, healthcare")
    case Regional => Localized("Данни по области и общини", "Data by regions and municipalities")
    case Sectoral => Localized("Туризъм, култура, индустрия", "Tourism, culture, industry")
    case Finance => Localized("Бюджет, банкиране, инвестиции", "Budget, banking, investment")
  }

  /** The icon and color the category page shows. */
  function IconOf(t: Topic): string
  {
    match t
    case Demographics => "users"
    case Economy => "trending-up"
    case Labor => "briefcase"
    case Social => "heart"
    case Regional => "map"
    case Sectoral => "building"
    case Finance => "dollar-sign"
  }

  function ColorOf(t: Topic): string
  {
    match t
    case Demographics => "blue"
    case Economy => "green"
    case Labor => "purple"
    case Social => "red"
    case Regional => "orange"
    case Sectoral => "indigo"
    case Finance => "emerald"
  }

  /** `categories`, in declaration order. */
  function AllCategories(): seq<Category>
  {
    seq(|Topics()|, i requires 0 <= i < |Topics()| => CategoryOf(Topics()[i]))
  }

  /** The id of each topic. */
  function TopicId(t: Topic): string
  {
    match t
    case Demographics => "demographics"
    case Economy => "economy"
    case Labor => "labor"
    case Social => "social"
    case Regional => "regional"
    case Sectoral => "sectoral"
    case Finance => "finance"
  }

  /** The ids of a category list, in order. */
  function Ids(cats: seq<Category>): (ids: seq<string>)
    ensures |ids| == |cats|
    ensures forall i :: 0 <= i < |cats| ==> ids[i] == cats[i].id
  {
    if cats == [] then [] else [cats[0].id] + Ids(cats[1..])
  }

  /** No id is used twice in a list. */
  predicate UniqueIds(cats: seq<Category>)
  {
    forall i, j :: 0 <= i < j < |cats| ==> cats[i].id != cats[j].id
  }

  /** Entry i of the table carries the id of the i-th topic. */
  lemma CategoryIds()
    ensures |AllCategories()| == |Topics()| == 7
    ensures forall i :: 0 <= i < |Topics()| ==> AllCategories()[i].id == TopicId(Topics()[i])
  {
  }

  /** Different topics have different ids. */
  lemma TopicIdInjective(a: Topic, b: Topic)
    ensures a != b ==> TopicId(a) != TopicId(b)
  {
  }

  /** Every topic's id is one of the seven the pages link to. */
  lemma TopicIdListed(t: Topic)
    ensures TopicId(t) in ["demographics", "economy", "labor", "social", "regional", "sectoral", "finance"]
  {
    match t
    case Demographics =>
    case Economy =>
    case Labor =>
    case Social =>
    case Regional =>
    case Sectoral =>
    case Finance =>
  }

  /** The table holds seven categories, no id twice. */
  lemma CategoryTable()
    ensures |AllCategories()| == 7
    ensures UniqueIds(AllCategories()) && NoDuplicates(Ids(AllCategories()))
  {
    CategoryUniqueIds();
    UniqueIdsDistinct(AllCategories());
  }

  lemma CategoryUniqueIds()
    ensures |AllCategories()| == 7
    ensures UniqueIds(AllCategories())
  {
    CategoryIds();
    TopicIdsUnique();
  }

  lemma TopicIdsUnique()
    ensures forall i, j :: 0 <= i < j < |Topics()| ==> TopicId(Topics()[i]) != TopicId(Topics()[j])
  {
    var ts := Topics();
    assert NoDuplicates(ts);
    forall i, j | 0 <= i < j < |ts| ensures TopicId(ts[i]) != TopicId(ts[j]) {
      TopicIdInjective(ts[i], ts[j]);
    }
  }

  lemma UniqueIdsDistinct(cats: seq<Category>)
    requires UniqueIds(cats)
    ensures NoDuplicates(Ids(cats))
  {
  }

  /** No shipped category lists a subcategory. */
  lemma NoSubcategories()
    ensures forall i :: 0 <= i < |AllCategories()| ==> AllCategories()[i].subcategories == []
  {
  }

  /** `categories.find(cat => cat.id === id)` over a given list: the first category with the id. */
  function FindCategory(cats: seq<Category>, id: string): (r: Option<Category>)
    ensures r.None? <==> id !in Ids(cats)
    ensures r.Some? ==> r.value == cats[IndexOf(Ids(cats), id)] && r.value.id == id
  {
    if cats == [] then None
    else if cats[0].id == id then Some(cats[0])
    else FindCategory(cats[1..], id)
  }

  /** getCategoryById. */
  function GetCategoryById(id: string): Option<Category>
  {
    FindCategory(AllCategories(), id)
  }

  /** getCategoryName: the name in the locale, or the id itself for an unknown id. */
  function GetCategoryName(id: string, locale: Locale): (r: string)
    ensures GetCategoryById(id).Some? ==> r == GetCategoryById(id).value.name.In(locale)
    ensures GetCategoryById(id).None? ==> r == id
  {
    match GetCategoryById(id)
    case Some(category) => category.name.In(locale)
    case None => id
  }

  /** getCategoryById finds the one category with the id, and nothing for any other id. */
  lemma GetCategoryByIdExact(id: string)
    ensures GetCategoryById(id).Some? <==> id in Ids(AllCategories())
    ensures forall i :: 0 <= i < |AllCategories()| && AllCategories()[i].id == id ==>
      GetCategoryById(id) == Some(AllCategories()[i])
  {
    CategoryTable();
    var cats := AllCategories();
    forall i | 0 <= i < |cats| && cats[i].id == id ensures GetCategoryById(id) == Some(cats[i]) {
      assert Ids(cats)[i] == id;
      assert IndexOf(Ids(cats), id) == i;
    }
  }

  /** An id outside the table names itself, in either locale. */
  lemma UnknownCategoryName(id: string, locale: Locale)
    requires id !in ["demographics", "economy", "labor", "social", "regional", "sectoral", "finance"]
    ensures GetCategoryName(id, locale) == id
  {
    forall t ensures TopicId(t) != id {
      TopicIdListed(t);
    }
    CategoryIds();
    assert id !in Ids(AllCategories());
  }
}
