/**
 * Dataset normalisation: headers from the first row, a per-column classifier with keyword,
 * year-sample and gazetteer tests, the key-ness rule, and row filtering and sorting.
 */
module NormalizeData {
  import opened Wrappers
  import opened Strings
  import opened Seqs
  import opened Records
  import opened DatasetTypes

  function TemporalKeywords(): seq<string>
  {
    ["year", "година", "month", "месец", "quarter", "тримесечие", "date", "дата", "time", "време",
     "period", "период"]
  }

  function GeoKeywords(): seq<string>
  {
    ["region", "област", "district", "район", "municipality", "община", "city", "град", "country",
     "държава", "location", "локация"]
  }

  /** Known Bulgarian place names, lower-cased ('montana' is listed twice). */
  function Gazetteer(): seq<string>
  {
    ["софия", "пловдив", "варна", "бургас", "русе", "стара загора",
     "плевен", "сливен", "добрич", "шумен", "перник", "хасково",
     "montana", "montana", "ямбол", "видин", "враца", "благоевград",
     "кърджали", "кюстендил", "ловеч", "разград", "силистра", "смолян",
     "софия-град", "софия-област", "търговище", "габрово", "пазарджик",
     "sofia", "plovdiv", "varna", "burgas", "ruse"]
  }

  /** A value read as a year lies in [1900, 2100]: numbers as they are, anything else through `parseInt(String(v), 10)`. */
  predicate YearLike(v: Val)
  {
    var num := if v.Num? then Some(v.n) else ParseInt(JsString(v));
    num.Some? && 1900 <= num.value <= 2100
  }

  /** `String(v).toLowerCase()` contains a gazetteer entry. */
  predicate PlaceLike(v: Val)
  {
    MentionsAny(JsString(v), Gazetteer())
  }

  /** The values isTemporalDimension samples: the first ten. */
  function Sample(values: seq<Val>): (s: seq<Val>)
    ensures |s| == Min(10, |values|) && s <= values
  {
    Take(values, 10)
  }

  /**
   * isTemporalDimension: a temporal keyword in the name, or more than half of the sampled
   * values year-like (`2 * years > |sample|`).
   */
  predicate IsTemporalDimension(name: string, values: seq<Val>)
  {
    MentionsAny(name, TemporalKeywords())
    || (|values| > 0 && 2 * Count(Sample(values), YearLike) > |Sample(values)|)
  }

  /** isGeographicDimension: a geographic keyword in the name, or more than 20% of the values place-like. */
  predicate IsGeographicDimension(name: string, values: seq<Val>)
  {
    MentionsAny(name, GeoKeywords()) || 5 * Count(values, PlaceLike) > |values|
  }

  /** How many values are numbers. */
  function NumericCount(values: seq<Val>): nat
  {
    Count(values, (v: Val) => v.Num?)
  }

  /** inferDimensionType: temporal, then geographic (both on the distinct values), then more than 80% numbers. */
  function InferDimensionType(name: string, uniqueValues: seq<Val>, allValues: seq<Val>): DimensionType
  {
    if IsTemporalDimension(name, uniqueValues) then Temporal
    else if IsGeographicDimension(name, uniqueValues) then Geographic
    else if 5 * NumericCount(allValues) > 4 * |allValues| then Numerical
    else Categorical
  }

  /** The tests are tried in order: temporal first, geographic only when not temporal, the numeric ratio last. */
  lemma InferDimensionTypePriority(name: string, uniqueValues: seq<Val>, allValues: seq<Val>)
    ensures var t := InferDimensionType(name, uniqueValues, allValues);
      && (t == Temporal <==> IsTemporalDimension(name, uniqueValues))
      && (t == Geographic <==> !IsTemporalDimension(name, uniqueValues) && IsGeographicDimension(name, uniqueValues))
      && (t == Numerical <==>
            (!IsTemporalDimension(name, uniqueValues) && !IsGeographicDimension(name, uniqueValues)
             && 5 * NumericCount(allValues) > 4 * |allValues|))
      && (allValues == [] ==> t != Numerical)
  {
  }

  /** A column whose sampled values are all years is temporal, whatever its name. */
  lemma YearColumnIsTemporal(name: string, uniqueValues: seq<Val>, allValues: seq<Val>)
    requires |uniqueValues| > 0
    requires forall i :: 0 <= i < |Sample(uniqueValues)| ==> YearLike(Sample(uniqueValues)[i])
    ensures InferDimensionType(name, uniqueValues, allValues) == Temporal
  {
    CountAll(Sample(uniqueValues), YearLike);
  }

  /** isKeyDimension: more than 90% distinct (`10 * cardinality > 9 * totalRows`), or temporal, or geographic. */
  predicate IsKeyDimension(t: DimensionType, cardinality: nat, totalRows: nat)
  {
    10 * cardinality > 9 * totalRows || t == Temporal || t == Geographic
  }

  /** A column with a distinct value in every row is a key; a mostly-repeating numerical or categorical column is not. */
  lemma IsKeyDimensionRules(t: DimensionType, cardinality: nat, totalRows: nat)
    ensures totalRows > 0 && cardinality == totalRows ==> IsKeyDimension(t, cardinality, totalRows)
    ensures (t == Temporal || t == Geographic) ==> IsKeyDimension(t, cardinality, totalRows)
    ensures (t == Numerical || t == Categorical) && 10 * cardinality <= 9 * totalRows ==>
      !IsKeyDimension(t, cardinality, totalRows)
  {
  }

  /** The dimension analyzeDimensions pushes for one header. */
  function Dimension(data: seq<Row>, header: string): (d: DataDimension)
    ensures d.name == header
  {
    var values := ColumnValues(data, header);
    var uniqueValues := Distinct(values);
    var t := InferDimensionType(header, uniqueValues, values);
    DataDimension(header, t, |uniqueValues|, IsKeyDimension(t, |uniqueValues|, |data|))
  }

  /** The dimensions of the given headers, in header order. */
  function Dimensions(data: seq<Row>, headers: seq<string>): (ds: seq<DataDimension>)
    ensures |ds| == |headers|
    ensures forall i :: 0 <= i < |headers| ==> ds[i] == Dimension(data, headers[i])
  {
    seq(|headers|, i requires 0 <= i < |headers| => Dimension(data, headers[i]))
  }

  /** The cardinality of a dimension is the number of different non-null values in its column. */
  lemma DimensionCardinality(data: seq<Row>, header: string)
    ensures Dimension(data, header).cardinality == |set v | v in ColumnValues(data, header)|
    ensures Dimension(data, header).cardinality <= |data|
  {
    DistinctCardinality(ColumnValues(data, header));
  }

  lemma DimensionOf(data: seq<Row>, header: string, values: seq<Val>, uniqueValues: seq<Val>, t: DimensionType)
    requires values == ColumnValues(data, header) && uniqueValues == Distinct(values)
    requires t == InferDimensionType(header, uniqueValues, values)
    ensures Dimension(data, header) == DataDimension(header, t, |uniqueValues|, IsKeyDimension(t, |uniqueValues|, |data|))
  {
  }

  /** analyzeDimensions: one pass over the headers, pushing one dimension each. */
  method AnalyzeDimensions(data: seq<Row>, headers: seq<string>) returns (dimensions: seq<DataDimension>)
    ensures dimensions == Dimensions(data, headers)
  {
    dimensions := [];
    for i := 0 to |headers|
      invariant |dimensions| == i
      invariant forall j :: 0 <= j < i ==> dimensions[j] == Dimension(data, headers[j])
    {
      var header := headers[i];
      var values := ColumnValues(data, header);
      var uniqueValues := Distinct(values);
      var cardinality := |uniqueValues|;
      var t := InferDimensionType(header, uniqueValues, values);
      var dimension := DataDimension(header, t, cardinality, IsKeyDimension(t, cardinality, |data|));
      DimensionOf(data, header, values, uniqueValues, t);
      dimensions := dimensions + [dimension];
    }
  }

  /** normalizeData: headers from the first row, the rows as given, and their metadata. */
  function Normalize(data: seq<Row>): (r: NormalizedData)
    ensures data == [] ==> r == NormalizedData([], [], Metadata(0, 0, []))
    ensures data != [] ==> r.headers == Keys(data[0]) && r.rows == data
    ensures r.metadata.rowCount == |data| && r.metadata.columnCount == |r.headers|
    ensures |r.metadata.dimensions| == |r.headers|
    ensures forall i :: 0 <= i < |r.headers| ==> r.metadata.dimensions[i].name == r.headers[i]
  {
    if data == [] then NormalizedData([], [], Metadata(0, 0, []))
    else
      var headers := Keys(data[0]);
      NormalizedData(headers, data, Metadata(|data|, |headers|, Dimensions(data, headers)))
  }

  /** A filter value: an array means membership, anything else strict equality. */
  datatype FilterValue = Equals(expected: Val) | OneOf(options: seq<Val>)

  /** The entries of the filter record, in order. */
  type Filters = seq<(string, FilterValue)>

  /** `row[key] === value` or `value.includes(row[key])`; a missing field (None) is `undefined`, which no filter value is. */
  predicate Accepts(f: FilterValue, c: Option<Val>)
  {
    match f
    case Equals(expected) => c == Some(expected)
    case OneOf(options) => c.Some? && c.value in options
  }

  /** The row passes every filter. */
  predicate MatchesAll(row: Row, filters: Filters)
  {
    forall i :: 0 <= i < |filters| ==> Accepts(filters[i].1, FieldValue(row, filters[i].0))
  }

  /** filterData: the rows passing every filter, in order; only rowCount changes in the metadata. */
  function FilterData(data: NormalizedData, filters: Filters): (r: NormalizedData)
    ensures r.headers == data.headers
    ensures r.metadata == data.metadata.(rowCount := |r.rows|)
    ensures |r.rows| <= |data.rows|
    ensures forall row :: row in r.rows <==> row in data.rows && MatchesAll(row, filters)
  {
    var rows := Filter(data.rows, (row: Row) => MatchesAll(row, filters));
    data.(rows := rows, metadata := data.metadata.(rowCount := |rows|))
  }

  /**
   * A kept row has every filtered field, holding an accepted value: a null filter keeps rows
   * whose field is null, never rows that lack the field.
   */
  lemma FilteredRowsHaveFields(data: NormalizedData, filters: Filters, row: Row, i: nat)
    requires row in FilterData(data, filters).rows && i < |filters|
    ensures filters[i].0 in Keys(row)
    ensures filters[i].1.Equals? ==> Get(row, filters[i].0) == filters[i].1.expected
    ensures filters[i].1.OneOf? ==> Get(row, filters[i].0) in filters[i].1.options
  {
    assert MatchesAll(row, filters);
    assert Accepts(filters[i].1, FieldValue(row, filters[i].0));
  }

  /** With no filters every row is kept, in order. */
  lemma FilterDataNoFilters(data: NormalizedData)
    ensures FilterData(data, []).rows == data.rows
  {
    FilterAll(data.rows, (row: Row) => MatchesAll(row, []));
  }

  /** Filtering keeps the original order: it distributes over a split of the rows. */
  lemma FilterDataKeepsOrder(data: NormalizedData, filters: Filters, k: nat)
    requires k <= |data.rows|
    ensures FilterData(data, filters).rows
      == FilterData(data.(rows := data.rows[..k]), filters).rows + FilterData(data.(rows := data.rows[k..]), filters).rows
  {
    assert data.rows == data.rows[..k] + data.rows[k..];
    FilterAppend(data.rows[..k], data.rows[k..], (row: Row) => MatchesAll(row, filters));
  }

  /** The sort direction. */
  datatype Direction = Asc | Desc

  /** JavaScript `<` on two different non-null values: numbers by value, strings by character code; a number sorts before a string. */
  predicate ValLess(a: Val, b: Val)
  {
    match (a, b)
    case (Num(x), Num(y)) => x < y
    case (Str(x), Str(y)) => StrLess(x, y)
    case (Num(_), Str(_)) => true
    case _ => false
  }

  /** The comparator of sortData. */
  function Compare(a: Val, b: Val, dir: Direction): (c: int)
    ensures c == -1 || c == 0 || c == 1
    ensures c == 0 <==> a == b
  {
    if a == b then 0
    else if a == Null then 1
    else if b == Null then -1
    else
      var comparison := if ValLess(a, b) then -1 else 1;
      if dir == Asc then comparison else -comparison
  }

  /** Null sorts after everything else in both directions; desc negates only the comparison of two non-null values. */
  lemma CompareRules(a: Val, b: Val)
    ensures a != Null ==> Compare(Null, a, Asc) == 1 && Compare(Null, a, Desc) == 1
    ensures a != Null ==> Compare(a, Null, Asc) == -1 && Compare(a, Null, Desc) == -1
    ensures a != Null && b != Null ==> Compare(a, b, Desc) == -Compare(a, b, Asc)
  {
  }

  lemma CompareAntisymmetric(a: Val, b: Val, dir: Direction)
    ensures Compare(b, a, dir) == -Compare(a, b, dir)
  {
    if a != b && a != Null && b != Null {
      ValLessTotal(a, b);
    }
  }

  /** On two different non-null values exactly one is less. */
  lemma ValLessTotal(a: Val, b: Val)
    requires a != b && a != Null && b != Null
    ensures ValLess(a, b) != ValLess(b, a)
  {
    match (a, b)
    case (Str(x), Str(y)) => StrLessTotal(x, y);
    case _ =>
  }

  lemma ValLessTransitive(a: Val, b: Val, c: Val)
    requires ValLess(a, b) && ValLess(b, c)
    ensures ValLess(a, c)
  {
    match (a, b, c)
    case (Str(x), Str(y), Str(z)) => StrLessTransitive(x, y, z);
    case _ =>
  }

  lemma CompareTransitive(a: Val, b: Val, c: Val, dir: Direction)
    requires Compare(a, b, dir) <= 0 && Compare(b, c, dir) <= 0
    ensures Compare(a, c, dir) <= 0
  {
    if a != b && b != c && a != c && a != Null && b != Null && c != Null {
      ValLessTotal(a, b);
      ValLessTotal(b, c);
      ValLessTotal(a, c);
      if dir == Asc {
        ValLessTransitive(a, b, c);
      } else {
        ValLessTransitive(c, b, a);
      }
    }
  }

  /** `aVal == null`: loose equality holds for both null and `undefined` (a missing field). */
  predicate Nullish(c: Option<Val>)
  {
    c.None? || c == Some(Null)
  }

  /** The cell a missing field reads as once `undefined` and null are one value. */
  function CellValue(c: Option<Val>): Val
  {
    if c.None? then Null else c.value
  }

  /**
   * sortData's comparator as written, on cells that keep `undefined` (None) apart from null:
   * `aVal === bVal` sees them as different, and `aVal == null` then answers 1 first.
   */
  function CompareCells(a: Option<Val>, b: Option<Val>, dir: Direction): (c: int)
    ensures c == -1 || c == 0 || c == 1
    ensures c == 0 <==> a == b
    ensures a != b && Nullish(a) ==> c == 1
    ensures a != b && !Nullish(a) && Nullish(b) ==> c == -1
  {
    if a == b then 0
    else if Nullish(a) then 1
    else if Nullish(b) then -1
    else
      var comparison := if ValLess(a.value, b.value) then -1 else 1;
      if dir == Asc then comparison else -comparison
  }

  /** Apart from a null field against a missing one, the comparator as written agrees with Compare. */
  lemma CompareCellsAgrees(a: Option<Val>, b: Option<Val>, dir: Direction)
    requires !(Nullish(a) && Nullish(b))
    ensures CompareCells(a, b, dir) == Compare(CellValue(a), CellValue(b), dir)
  {
  }

  /**
   * The comparator as written is not antisymmetric: a row whose field is null and a row that lacks
   * the field each sort after the other, in either direction. Compare, which reads both as Null,
   * answers 0 both ways.
   */
  lemma NullAndMissingBothSortLast(dir: Direction)
    ensures var withNull: Row := [("x", Null)];
      var without: Row := [];
      && CompareCells(FieldValue(withNull, "x"), FieldValue(without, "x"), dir) == 1
      && CompareCells(FieldValue(without, "x"), FieldValue(withNull, "x"), dir) == 1
      && Compare(Get(withNull, "x"), Get(without, "x"), dir) == 0
      && Compare(Get(without, "x"), Get(withNull, "x"), dir) == 0
  {
    var withNull: Row := [("x", Null)];
    assert Keys(withNull) == ["x"];
  }

  /** The rows are in comparator order on the sort column. */
  predicate SortedBy(rows: seq<Row>, key: string, dir: Direction)
  {
    forall i, j :: 0 <= i < j < |rows| ==> Compare(Get(rows[i], key), Get(rows[j], key), dir) <= 0
  }

  /** Insert one row after every row that does not compare greater (so equal rows keep their order). */
  function Insert(sorted: seq<Row>, x: Row, key: string, dir: Direction): (r: seq<Row>)
    ensures multiset(r) == multiset(sorted) + multiset{x}
  {
    if sorted == [] then [x]
    else if Compare(Get(sorted[|sorted| - 1], key), Get(x, key), dir) <= 0 then sorted + [x]
    else
      assert sorted == sorted[..|sorted| - 1] + [sorted[|sorted| - 1]];
      Insert(sorted[..|sorted| - 1], x, key, dir) + [sorted[|sorted| - 1]]
  }

  lemma {:induction false} InsertSorted(sorted: seq<Row>, x: Row, key: string, dir: Direction)
    requires SortedBy(sorted, key, dir)
    ensures SortedBy(Insert(sorted, x, key, dir), key, dir)
  {
    if sorted != [] {
      var last := sorted[|sorted| - 1];
      var init := sorted[..|sorted| - 1];
      if Compare(Get(last, key), Get(x, key), dir) <= 0 {
        forall i | 0 <= i < |sorted|
          ensures Compare(Get(sorted[i], key), Get(x, key), dir) <= 0
        {
          if i < |sorted| - 1 {
            CompareTransitive(Get(sorted[i], key), Get(last, key), Get(x, key), dir);
          }
        }
        SortedSnoc(sorted, x, key, dir);
      } else {
        CompareAntisymmetric(Get(last, key), Get(x, key), dir);
        InsertSorted(init, x, key, dir);
        var ins := Insert(init, x, key, dir);
        forall i | 0 <= i < |ins|
          ensures Compare(Get(ins[i], key), Get(last, key), dir) <= 0
        {
          assert ins[i] in multiset(ins);
          assert ins[i] in init || ins[i] == x;
        }
        SortedSnoc(ins, last, key, dir);
      }
    }
  }

  /** A sorted list stays sorted when a row no smaller than each of its rows is appended. */
  lemma SortedSnoc(s: seq<Row>, y: Row, key: string, dir: Direction)
    requires SortedBy(s, key, dir)
    requires forall i :: 0 <= i < |s| ==> Compare(Get(s[i], key), Get(y, key), dir) <= 0
    ensures SortedBy(s + [y], key, dir)
  {
  }

  /** A stable insertion sort by the comparator; the model of `[...rows].sort(cmp)`. */
  function SortRows(rows: seq<Row>, key: string, dir: Direction): (r: seq<Row>)
    ensures multiset(r) == multiset(rows)
  {
    if rows == [] then []
    else
      assert rows == rows[..|rows| - 1] + [rows[|rows| - 1]];
      Insert(SortRows(rows[..|rows| - 1], key, dir), rows[|rows| - 1], key, dir)
  }

  lemma {:induction false} SortRowsSorted(rows: seq<Row>, key: string, dir: Direction)
    ensures SortedBy(SortRows(rows, key, dir), key, dir)
  {
    if rows != [] {
      SortRowsSorted(rows[..|rows| - 1], key, dir);
      InsertSorted(SortRows(rows[..|rows| - 1], key, dir), rows[|rows| - 1], key, dir);
    }
  }

  /** sortData: the same rows in comparator order, with headers and metadata untouched. */
  function SortData(data: NormalizedData, sortBy: string, dir: Direction): (r: NormalizedData)
    ensures r.headers == data.headers && r.metadata == data.metadata
    ensures multiset(r.rows) == multiset(data.rows)
  {
    data.(rows := SortRows(data.rows, sortBy, dir))
  }

  /** The sorted rows are ordered by the comparator, and rows without a value come last in either direction. */
  lemma SortDataOrdered(data: NormalizedData, sortBy: string, dir: Direction)
    ensures SortedBy(SortData(data, sortBy, dir).rows, sortBy, dir)
    ensures var rows := SortData(data, sortBy, dir).rows;
      forall i, j :: 0 <= i < j < |rows| && Get(rows[i], sortBy) == Null ==> Get(rows[j], sortBy) == Null
  {
    SortRowsSorted(data.rows, sortBy, dir);
  }
}
