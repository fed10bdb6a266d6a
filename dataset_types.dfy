/** The value types shared by the pipeline: chart kinds, dimensions, normalized datasets, registry entries. */
module DatasetTypes {
  import opened Records

  datatype ChartType = Line | Bar | Pie | Map | Table | Scatter

  /** What a column holds, as inferred from its name and values. */
  datatype DimensionType = Categorical | Numerical | Temporal | Geographic

  datatype Locale = Bg | En

  /** A text in both supported languages. */
  datatype Localized = Localized(bg: string, en: string)
  {
    /** `text[locale]`. */
    function In(locale: Locale): string
    {
      match locale
      case Bg => bg
      case En => en
    }
  }

  /** `locale` as it appears in URLs. */
  function LocaleCode(locale: Locale): string
  {
    match locale
    case Bg => "bg"
    case En => "en"
  }

  datatype DataDimension = DataDimension(name: string, dimType: DimensionType, cardinality: nat, isKey: bool)

  datatype Metadata = Metadata(rowCount: nat, columnCount: nat, dimensions: seq<DataDimension>)

  datatype NormalizedData = NormalizedData(headers: seq<string>, rows: seq<Row>, metadata: Metadata)

  /** One column as the chart selector summarizes it (at most 100 sample values). */
  datatype ColumnProfile = ColumnProfile(name: string, dimType: DimensionType, cardinality: nat, uniqueValues: seq<Val>)

  datatype DataCharacteristics = DataCharacteristics(
    rowCount: nat,
    columnCount: nat,
    categoricalDimensions: nat,
    numericalDimensions: nat,
    temporalDimensions: nat,
    geographicDimensions: nat,
    dimensions: seq<ColumnProfile>)

  /** A registry entry: the fields the lookup and search code reads. */
  datatype Dataset = Dataset(
    id: string,
    nsiId: string,
    title: Localized,
    description: Localized,
    category: string,
    subcategory: string)
}
