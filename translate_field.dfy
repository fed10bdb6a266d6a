/** Field-name translation: a fixed table of known column names with a Bulgarian and an English label. */
module TranslateField {
  import opened Wrappers
  import opened Strings
  import opened Seqs
  import opened DatasetTypes

  /** The known field names, one constructor each. */
  datatype Field =
    | Year
    | Quarter
    | Month
    | Region
    | Value
    | Category
    | Type
    | Sector
    | Salary
    | Students
    | Rate
    | Population
    | Births
    | Deaths
    | Gdp
    | Export
    | Import
    | Index
    | Nights
    | Amount

  /** The declaration order of the table. */
  function Fields(): seq<Field>
  {
    [Year, Quarter, Month, Region, Value, Category, Type, Sector, Salary, Students, Rate, Population, Births, Deaths, Gdp, Export, Import, Index, Nights, Amount]
  }

  /** The lower-case key of each field. */
  function KeyOf(f: Field): string
  {
    match f
    case Year => "year"
    case Quarter => "quarter"
    case Month => "month"
    case Region => "region"
    case Value => "value"
    case Category => "category"
    case Type => "type"
    case Sector => "sector"
    case Salary => "salary"
    case Students => "students"
    case Rate => "rate"
    case Population => "population"
    case Births => "births"
    case Deaths => "deaths"
    case Gdp => "gdp"
    case Export => "export"
    case Import => "import"
    case Index => "index"
    case Nights => "nights"
    case Amount => "amount"
  }

  /** The labels of each field. */
  function LabelsOf(f: Field): Localized
  {
    match f
    case Year => Localized("Година", "Year")
    case Quarter => Localized("Тримесечие", "Quarter")
    case Month => Localized("Месец", "Month")
    case Region => Localized("Регион", "Region")
    case Value => Localized("Стойност", "Value")
    case Category => Localized("Категория", "Category")
    case Type => Localized("Тип", "Type")
    case Sector => Localized("Сектор", "Sector")
    case Salary => Localized("Заплата", "Salary")
    case Students => Localized("Учащи", "Students")
    case Rate => Localized("Коефициент", "Rate")
    case Population => Localized("Население", "Population")
    case Births => Localized("Раждания", "Births")
    case Deaths => Localized("Смъртност", "Deaths")
    case Gdp => Localized("БВП", "GDP")
    case Export => Localized("Износ", "Export")
    case Import => Localized("Внос", "Import")
    case Index => Localized("Индекс", "Index")
    case Nights => Localized("Нощувки", "Nights")
    case Amount => Localized("Сума", "Amount")
  }

  /** `translations`: the known field names, lower-cased, with their labels. */
  function Translations(): seq<(string, Localized)>
  {
    seq(|Fields()|, i requires 0 <= i < |Fields()| => (KeyOf(Fields()[i]), LabelsOf(Fields()[i])))
  }

  /** `translations[key]`: the labels stored under key, if any. */
  function Lookup(table: seq<(string, Localized)>, key: string): (r: Option<Localized>)
    ensures r.Some? <==> exists i :: 0 <= i < |table| && table[i].0 == key
    ensures r.Some? ==> (key, r.value) in table
  {
    if table == [] then None
    else if table[0].0 == key then Some(table[0].1)
    else
      var r := Lookup(table[1..], key);
      assert forall i :: 1 <= i < |table| ==> table[i] == table[1..][i - 1];
      r
  }

  /** `table[name.toLowerCase()]?.[locale] || fieldName`. */
  function Translate(table: seq<(string, Localized)>, fieldName: string, locale: Locale): (r: string)
    ensures Lookup(table, ToLower(fieldName)).None? ==> r == fieldName
    ensures Lookup(table, ToLower(fieldName)).Some? ==>
      r == OrElse(Lookup(table, ToLower(fieldName)).value.In(locale), fieldName)
  {
    match Lookup(table, ToLower(fieldName))
    case None => fieldName
    case Some(labels) => OrElse(labels.In(locale), fieldName)
  }

  /** translateFieldName, over the fixed table. */
  function TranslateFieldName(fieldName: string, locale: Locale): string
  {
    Translate(Translations(), fieldName, locale)
  }

  /** No key appears twice. */
  predicate DistinctKeys(table: seq<(string, Localized)>)
  {
    forall a, b :: 0 <= a < b < |table| ==> table[a].0 != table[b].0
  }

  /** Every English label lowers to its own key, and every label is non-empty. */
  predicate LabelsWellFormed(table: seq<(string, Localized)>)
  {
    forall i :: 0 <= i < |table| ==>
      ToLower(table[i].1.en) == table[i].0 && table[i].1.en != "" && table[i].1.bg != ""
  }

  /** Every Bulgarian label starts with a Cyrillic capital, and every key with a character below the Cyrillic block. */
  predicate BulgarianLabelsUnkeyed(table: seq<(string, Localized)>)
  {
    && (forall i :: 0 <= i < |table| ==> table[i].1.bg != [] && 'А' <= table[i].1.bg[0] <= 'Я')
    && (forall j :: 0 <= j < |table| ==> table[j].0 == [] || table[j].0[0] < 'А')
  }

  /** Different fields have different keys. */
  lemma KeysInjective(f: Field, g: Field)
    ensures f != g ==> KeyOf(f) != KeyOf(g)
  {
  }

  /** Entry i of the table is the i-th field's key and labels. */
  lemma TranslationAt()
    ensures |Translations()| == |Fields()| == 20
    ensures forall i :: 0 <= i < |Fields()| ==> Translations()[i] == (KeyOf(Fields()[i]), LabelsOf(Fields()[i]))
  {
  }

  lemma FieldKeysUnique()
    ensures forall i, j :: 0 <= i < j < |Fields()| ==> KeyOf(Fields()[i]) != KeyOf(Fields()[j])
  {
    var fs := Fields();
    assert NoDuplicates(fs);
    forall i, j | 0 <= i < j < |fs| ensures KeyOf(fs[i]) != KeyOf(fs[j]) {
      KeysInjective(fs[i], fs[j]);
    }
  }

  lemma TranslationsDistinct()
    ensures DistinctKeys(Translations())
  {
    TranslationAt();
    FieldKeysUnique();
  }

  /** A field's Bulgarian label starts with a Cyrillic capital, and its key with a Latin letter. */
  lemma FieldBulgarian(f: Field)
    ensures LabelsOf(f).bg != [] && 'А' <= LabelsOf(f).bg[0] <= 'Я'
    ensures KeyOf(f) != [] && KeyOf(f)[0] < 'А'
  {
    match f
    case Year =>
    case Quarter =>
    case Month =>
    case Region =>
    case Value =>
    case Category =>
    case Type =>
    case Sector =>
    case Salary =>
    case Students =>
    case Rate =>
    case Population =>
    case Births =>
    case Deaths =>
    case Gdp =>
    case Export =>
    case Import =>
    case Index =>
    case Nights =>
    case Amount =>
  }

  lemma TranslationsBulgarian()
    ensures BulgarianLabelsUnkeyed(Translations())
  {
    TranslationAt();
    forall f ensures LabelsOf(f).bg != [] && 'А' <= LabelsOf(f).bg[0] <= 'Я' && KeyOf(f) != [] && KeyOf(f)[0] < 'А' {
      FieldBulgarian(f);
    }
  }

  /** A field's English label lowers to its key; neither label is empty. */
  lemma FieldWellFormed(f: Field)
    ensures ToLower(LabelsOf(f).en) == KeyOf(f) && LabelsOf(f).en != "" && LabelsOf(f).bg != ""
  {
    if f in FieldGroupA() {
      GroupAWellFormed(f);
    } else if f in FieldGroupB() {
      GroupBWellFormed(f);
    } else if f in FieldGroupC() {
      GroupCWellFormed(f);
    } else {
      GroupDWellFormed(f);
    }
  }

  /** Fields 1 to 5 of the table. */
  function FieldGroupA(): set<Field>
  {
    {Year, Quarter, Month, Region, Value}
  }

  lemma GroupAWellFormed(f: Field)
    requires f in FieldGroupA()
    ensures ToLower(LabelsOf(f).en) == KeyOf(f) && LabelsOf(f).en != "" && LabelsOf(f).bg != ""
  {
    match f
    case Year => LowerOfWord(LabelsOf(Year).en, KeyOf(Year));
    case Quarter => LowerOfWord(LabelsOf(Quarter).en, KeyOf(Quarter));
    case Month => LowerOfWord(LabelsOf(Month).en, KeyOf(Month));
    case Region => LowerOfWord(LabelsOf(Region).en, KeyOf(Region));
    case Value => LowerOfWord(LabelsOf(Value).en, KeyOf(Value));
  }

  /** Fields 6 to 10 of the table. */
  function FieldGroupB(): set<Field>
  {
    {Category, Type, Sector, Salary, Students}
  }

  lemma GroupBWellFormed(f: Field)
    requires f in FieldGroupB()
    ensures ToLower(LabelsOf(f).en) == KeyOf(f) && LabelsOf(f).en != "" && LabelsOf(f).bg != ""
  {
    match f
    case Category => LowerOfWord(LabelsOf(Category).en, KeyOf(Category));
    case Type => LowerOfWord(LabelsOf(Type).en, KeyOf(Type));
    case Sector => LowerOfWord(LabelsOf(Sector).en, KeyOf(Sector));
    case Salary => LowerOfWord(LabelsOf(Salary).en, KeyOf(Salary));
    case Students => LowerOfWord(LabelsOf(Students).en, KeyOf(Students));
  }

  /** Fields 11 to 15 of the table. */
  function FieldGroupC(): set<Field>
  {
    {Rate, Population, Births, Deaths, Gdp}
  }

  lemma GroupCWellFormed(f: Field)
    requires f in FieldGroupC()
    ensures ToLower(LabelsOf(f).en) == KeyOf(f) && LabelsOf(f).en != "" && LabelsOf(f).bg != ""
  {
    match f
    case Rate => LowerOfWord(LabelsOf(Rate).en, KeyOf(Rate));
    case Population => LowerOfWord(LabelsOf(Population).en, KeyOf(Population));
    case Births => LowerOfWord(LabelsOf(Births).en, KeyOf(Births));
    case Deaths => LowerOfWord(LabelsOf(Deaths).en, KeyOf(Deaths));
    case Gdp => LowerOfWord(LabelsOf(Gdp).en, KeyOf(Gdp));
  }

  /** Fields 16 to 20 of the table. */
  function FieldGroupD(): set<Field>
  {
    {Export, Import, Index, Nights, Amount}
  }

  lemma GroupDWellFormed(f: Field)
    requires f !in FieldGroupA() && f !in FieldGroupB() && f !in FieldGroupC()
    ensures ToLower(LabelsOf(f).en) == KeyOf(f) && LabelsOf(f).en != "" && LabelsOf(f).bg != ""
  {
    match f
    case Export => LowerOfWord(LabelsOf(Export).en, KeyOf(Export));
    case Import => LowerOfWord(LabelsOf(Import).en, KeyOf(Import));
    case Index => LowerOfWord(LabelsOf(Index).en, KeyOf(Index));
    case Nights => LowerOfWord(LabelsOf(Nights).en, KeyOf(Nights));
    case Amount => LowerOfWord(LabelsOf(Amount).en, KeyOf(Amount));
  }

  lemma TranslationsWellFormed()
    ensures LabelsWellFormed(Translations())
  {
    TranslationAt();
    forall f ensures ToLower(LabelsOf(f).en) == KeyOf(f) && LabelsOf(f).en != "" && LabelsOf(f).bg != "" {
      FieldWellFormed(f);
    }
  }

  /** ToLower on a concrete word, checked one character at a time. */
  lemma LowerOfWord(word: string, key: string)
    requires |word| == |key|
    requires forall k :: 0 <= k < |word| ==> LowerChar(word[k]) == key[k]
    ensures ToLower(word) == key
  {
  }

  /** In a table without repeated keys, looking up entry i's key finds entry i. */
  lemma {:induction false} KeysDistinctLookup(table: seq<(string, Localized)>, i: nat)
    requires i < |table|
    requires DistinctKeys(table)
    ensures Lookup(table, table[i].0) == Some(table[i].1)
  {
    if i > 0 {
      KeysDistinctLookup(table[1..], i - 1);
    }
  }

  /** A name whose lower-case form is a key translates to that entry's label for the locale. */
  lemma KnownNameTranslates(fieldName: string, locale: Locale, i: nat)
    requires i < |Translations()| && ToLower(fieldName) == Translations()[i].0
    ensures TranslateFieldName(fieldName, locale) == Translations()[i].1.In(locale)
  {
    var t := Translations();
    TranslationsDistinct();
    TranslationsWellFormed();
    KeysDistinctLookup(t, i);
    assert t[i].1.In(locale) != "";
  }

  /** A name that is not a key comes back unchanged, not lower-cased. */
  lemma UnknownNameUnchanged(fieldName: string, locale: Locale)
    requires forall i :: 0 <= i < |Translations()| ==> Translations()[i].0 != ToLower(fieldName)
    ensures TranslateFieldName(fieldName, locale) == fieldName
  {
  }

  /** Lookup is case-insensitive: two spellings that lower to the same known key translate alike. */
  lemma CaseInsensitive(a: string, b: string, locale: Locale)
    requires ToLower(a) == ToLower(b)
    requires exists i :: 0 <= i < |Translations()| && Translations()[i].0 == ToLower(a)
    ensures TranslateFieldName(a, locale) == TranslateFieldName(b, locale)
  {
    var i :| 0 <= i < |Translations()| && Translations()[i].0 == ToLower(a);
    KnownNameTranslates(a, locale, i);
    KnownNameTranslates(b, locale, i);
  }

  /** `YEAR`, `Year` and `year` all translate to the year label. */
  lemma YearSpellings(locale: Locale)
    ensures TranslateFieldName("YEAR", locale) == TranslateFieldName("year", locale)
    ensures TranslateFieldName("Year", locale) == TranslateFieldName("year", locale)
    ensures TranslateFieldName("year", locale) == (if locale == En then "Year" else "Година")
  {
    LowerOfWord("YEAR", "year");
    LowerOfWord("Year", "year");
    LowerOfWord("year", "year");
    KnownNameTranslates("year", locale, 0);
    KnownNameTranslates("Year", locale, 0);
    KnownNameTranslates("YEAR", locale, 0);
  }

  /** In a table with the shape of the fixed one, translating twice is translating once. */
  lemma TranslateTwice(table: seq<(string, Localized)>, fieldName: string, locale: Locale)
    requires DistinctKeys(table) && LabelsWellFormed(table) && BulgarianLabelsUnkeyed(table)
    ensures Translate(table, Translate(table, fieldName, locale), locale) == Translate(table, fieldName, locale)
  {
    if Lookup(table, ToLower(fieldName)).Some? {
      var i :| 0 <= i < |table| && table[i].0 == ToLower(fieldName);
      KeysDistinctLookup(table, i);
      assert Translate(table, fieldName, locale) == table[i].1.In(locale);
      if locale == En {
        EnglishLabelStays(table, i);
      } else {
        BulgarianLabelStays(table, i);
      }
    }
  }

  /** An English label lowers to its own key, so it translates to itself. */
  lemma EnglishLabelStays(table: seq<(string, Localized)>, i: nat)
    requires i < |table| && DistinctKeys(table) && LabelsWellFormed(table)
    ensures Translate(table, table[i].1.en, En) == table[i].1.en
  {
    KeysDistinctLookup(table, i);
  }

  /** A Bulgarian label lowers to no key, so it comes back unchanged. */
  lemma BulgarianLabelStays(table: seq<(string, Localized)>, i: nat)
    requires i < |table| && BulgarianLabelsUnkeyed(table)
    ensures Translate(table, table[i].1.bg, Bg) == table[i].1.bg
  {
    var r := table[i].1.bg;
    var lowered := ToLower(r);
    assert lowered[0] == LowerChar(r[0]);
    forall j | 0 <= j < |table| ensures table[j].0 != lowered {
      assert table[j].0 == [] || table[j].0[0] < 'А';
    }
  }

  /** Translating an already translated name changes nothing, in either locale. */
  lemma TranslateIdempotent(fieldName: string, locale: Locale)
    ensures TranslateFieldName(TranslateFieldName(fieldName, locale), locale) == TranslateFieldName(fieldName, locale)
  {
    TranslationsDistinct();
    TranslationsWellFormed();
    TranslationsBulgarian();
    TranslateTwice(Translations(), fieldName, locale);
  }
}
