/**
 * Chart-type selection: each column is profiled and classified, the classes are counted,
 * and a first-match rule list picks a chart; alternatives and validation use the same counts.
 */
module ChartSelector {
  import opened Wrappers
  import opened Strings
  import opened Seqs
  import opened Records
  import opened DatasetTypes

  function TemporalKeywords(): seq<string> { ["year", "година", "month", "месец", "quarter", "тримесечие", "date", "дата"] }
  function GeoKeywords(): seq<string> { ["region", "област", "district", "район", "municipality", "община", "city", "град"] }

  /** How many values are numbers (`typeof v === 'number'`; the model has no NaN). */
  function NumericCount(values: seq<Val>): nat
  {
    Count(values, (v: Val) => v.Num?)
  }

  /**
   * inferColumnType: a temporal keyword in the name wins, then a geographic keyword, then more
   * than 80% of the non-null values being numbers (written `5 * numbers > 4 * |values|`).
   */
  function InferColumnType(name: string, values: seq<Val>, uniqueValues: seq<Val>): (t: DimensionType)
    ensures t == Temporal <==> MentionsAny(name, TemporalKeywords())
    ensures t == Geographic <==> !MentionsAny(name, TemporalKeywords()) && MentionsAny(name, GeoKeywords())
    ensures t == Numerical ==> 5 * NumericCount(values) > 4 * |values|
    ensures t == Categorical ==> 5 * NumericCount(values) <= 4 * |values|
    ensures values == [] ==> t != Numerical
  {
    if MentionsAny(name, TemporalKeywords()) then Temporal
    else if MentionsAny(name, GeoKeywords()) then Geographic
    else if 5 * NumericCount(values) > 4 * |values| then Numerical
    else Categorical
  }

  /** The summary analyzeData pushes for one header. */
  function Profile(data: seq<Row>, header: string): ColumnProfile
  {
    var values := ColumnValues(data, header);
    var unique := Distinct(values);
    ColumnProfile(header, InferColumnType(header, values, unique), |unique|, Take(unique, 100))
  }

  /** A profile counts the distinct non-null values of its column and keeps at most a hundred of them. */
  lemma ProfileMeaning(data: seq<Row>, header: string)
    ensures var p := Profile(data, header);
      && p.name == header
      && p.cardinality == |set v | v in ColumnValues(data, header)|
      && |p.uniqueValues| == Min(100, p.cardinality)
      && forall v :: v in p.uniqueValues ==> v != Null
  {
    DistinctCardinality(ColumnValues(data, header));
  }

  /** The profiles of the given headers, in header order. */
  function Profiles(data: seq<Row>, headers: seq<string>): (ps: seq<ColumnProfile>)
    ensures |ps| == |headers|
    ensures forall i :: 0 <= i < |headers| ==> ps[i] == Profile(data, headers[i])
  {
    seq(|headers|, i requires 0 <= i < |headers| => Profile(data, headers[i]))
  }

  /** Each profile carries its header's name and at most a hundred sample values. */
  lemma ProfilesMeaning(data: seq<Row>, headers: seq<string>)
    ensures forall i :: 0 <= i < |headers| ==> Profiles(data, headers)[i].name == headers[i]
    ensures forall d :: d in Profiles(data, headers) ==> |d.uniqueValues| <= 100
  {
    forall i | 0 <= i < |headers| ensures Profiles(data, headers)[i].name == headers[i] &&
      |Profiles(data, headers)[i].uniqueValues| <= 100 {
      ProfileMeaning(data, headers[i]);
    }
  }

  /** The number of profiles of type t. */
  function CountType(dims: seq<ColumnProfile>, t: DimensionType): nat
  {
    Count(dims, (d: ColumnProfile) => d.dimType == t)
  }

  /** `dimensions.find(d => d.type === t)`. */
  function FirstOfType(dims: seq<ColumnProfile>, t: DimensionType): Option<ColumnProfile>
  {
    FindFirst(dims, (d: ColumnProfile) => d.dimType == t)
  }

  /** Every column has exactly one type, so the four counts add up to the number of columns. */
  lemma {:induction false} CountTypesSum(dims: seq<ColumnProfile>)
    ensures CountType(dims, Categorical) + CountType(dims, Numerical) + CountType(dims, Temporal)
      + CountType(dims, Geographic) == |dims|
  {
    if dims != [] {
      CountTypesSum(dims[..|dims| - 1]);
    }
  }

  /** When some column has type t, `find` returns the first such column. */
  lemma FirstOfTypeFound(dims: seq<ColumnProfile>, t: DimensionType)
    requires CountType(dims, t) >= 1
    ensures FirstOfType(dims, t).Some? && FirstOfType(dims, t).value in dims
    ensures FirstOfType(dims, t).value.dimType == t
  {
    CountPositive(dims, (d: ColumnProfile) => d.dimType == t);
  }

  /** The counters of c agree with the types of its profiles. */
  predicate Consistent(c: DataCharacteristics)
  {
    c.categoricalDimensions == CountType(c.dimensions, Categorical)
    && c.numericalDimensions == CountType(c.dimensions, Numerical)
    && c.temporalDimensions == CountType(c.dimensions, Temporal)
    && c.geographicDimensions == CountType(c.dimensions, Geographic)
  }

  /** What analyzeData returns: the counts and profiles of the columns named by the first row. */
  function Characteristics(data: seq<Row>): (c: DataCharacteristics)
    ensures c.rowCount == |data|
    ensures |data| == 0 ==> c == DataCharacteristics(0, 0, 0, 0, 0, 0, [])
    ensures |data| > 0 ==> c.columnCount == |Keys(data[0])| && |c.dimensions| == c.columnCount
    ensures |data| > 0 ==> forall i :: 0 <= i < |c.dimensions| ==> c.dimensions[i].name == Keys(data[0])[i]
    ensures c.categoricalDimensions + c.numericalDimensions + c.temporalDimensions
      + c.geographicDimensions == c.columnCount
    ensures forall d :: d in c.dimensions ==> |d.uniqueValues| <= 100
    ensures Consistent(c)
  {
    if |data| == 0 then DataCharacteristics(0, 0, 0, 0, 0, 0, [])
    else
      var headers := Keys(data[0]);
      var dims := Profiles(data, headers);
      CountTypesSum(dims);
      ProfilesMeaning(data, headers);
      DataCharacteristics(|data|, |headers|, CountType(dims, Categorical), CountType(dims, Numerical),
        CountType(dims, Temporal), CountType(dims, Geographic), dims)
  }

  lemma CharacteristicsOf(data: seq<Row>, dims: seq<ColumnProfile>)
    requires |data| > 0 && |dims| == |Keys(data[0])|
    requires forall j :: 0 <= j < |dims| ==> dims[j] == Profile(data, Keys(data[0])[j])
    ensures Characteristics(data) == DataCharacteristics(|data|, |dims|, CountType(dims, Categorical),
      CountType(dims, Numerical), CountType(dims, Temporal), CountType(dims, Geographic), dims)
  {
    assert dims == Profiles(data, Keys(data[0]));
  }

  /** One iteration of analyzeData's loop extends the profiles and bumps the count of one type. */
  lemma ProfileStep(data: seq<Row>, headers: seq<string>, i: nat, dims: seq<ColumnProfile>, p: ColumnProfile)
    requires i < |headers| && |dims| == i
    requires forall j :: 0 <= j < i ==> dims[j] == Profile(data, headers[j])
    requires p == Profile(data, headers[i])
    ensures forall j :: 0 <= j < i + 1 ==> (dims + [p])[j] == Profile(data, headers[j])
  {
    var dims' := dims + [p];
    forall j | 0 <= j < i + 1 ensures dims'[j] == Profile(data, headers[j]) {
      if j < i {
        assert dims'[j] == dims[j];
      }
    }
  }

  /** The body of analyzeData's loop for one header: its values, their distinct values, its type. */
  method ProfileColumn(data: seq<Row>, header: string) returns (profile: ColumnProfile)
    ensures profile == Profile(data, header)
  {
    var values := ColumnValues(data, header);
    var uniqueValues := Distinct(values);
    var t := InferColumnType(header, values, uniqueValues);
    profile := ColumnProfile(header, t, |uniqueValues|, Take(uniqueValues, 100));
  }

  /** Appending a profile bumps the count of its type and leaves the other counts alone. */
  lemma CountTypesAppend(dims: seq<ColumnProfile>, p: ColumnProfile)
    ensures CountType(dims + [p], Categorical) == CountType(dims, Categorical) + (if p.dimType == Categorical then 1 else 0)
    ensures CountType(dims + [p], Numerical) == CountType(dims, Numerical) + (if p.dimType == Numerical then 1 else 0)
    ensures CountType(dims + [p], Temporal) == CountType(dims, Temporal) + (if p.dimType == Temporal then 1 else 0)
    ensures CountType(dims + [p], Geographic) == CountType(dims, Geographic) + (if p.dimType == Geographic then 1 else 0)
  {
    CountAppend(dims, p, (d: ColumnProfile) => d.dimType == Categorical);
    CountAppend(dims, p, (d: ColumnProfile) => d.dimType == Numerical);
    CountAppend(dims, p, (d: ColumnProfile) => d.dimType == Temporal);
    CountAppend(dims, p, (d: ColumnProfile) => d.dimType == Geographic);
  }

  /** analyzeData: one pass over the headers, pushing a profile and bumping one counter each. */
  method AnalyzeData(data: seq<Row>) returns (c: DataCharacteristics)
    ensures c == Characteristics(data)
  {
    if |data| == 0 {
      return DataCharacteristics(0, 0, 0, 0, 0, 0, []);
    }
    var headers := Keys(data[0]);
    var dimensions, categoricalCount, numericalCount, temporalCount, geographicCount := ProfileHeaders(data, headers);
    CharacteristicsOf(data, dimensions);
    c := DataCharacteristics(|data|, |headers|, categoricalCount, numericalCount, temporalCount,
      geographicCount, dimensions);
  }

  /** The loop of analyzeData: push one profile per header and bump the counter of its type. */
  method ProfileHeaders(data: seq<Row>, headers: seq<string>)
    returns (dimensions: seq<ColumnProfile>, categoricalCount: nat, numericalCount: nat, temporalCount: nat, geographicCount: nat)
    ensures |dimensions| == |headers|
    ensures forall j :: 0 <= j < |headers| ==> dimensions[j] == Profile(data, headers[j])
    ensures categoricalCount == CountType(dimensions, Categorical)
    ensures numericalCount == CountType(dimensions, Numerical)
    ensures temporalCount == CountType(dimensions, Temporal)
    ensures geographicCount == CountType(dimensions, Geographic)
  {
    dimensions := [];
    categoricalCount, numericalCount, temporalCount, geographicCount := 0, 0, 0, 0;
    for i := 0 to |headers|
      invariant |dimensions| == i
      invariant forall j :: 0 <= j < i ==> dimensions[j] == Profile(data, headers[j])
      invariant categoricalCount == CountType(dimensions, Categorical)
      invariant numericalCount == CountType(dimensions, Numerical)
      invariant temporalCount == CountType(dimensions, Temporal)
      invariant geographicCount == CountType(dimensions, Geographic)
    {
      var profile := ProfileColumn(data, headers[i]);
      ProfileStep(data, headers, i, dimensions, profile);
      CountTypesAppend(dimensions, profile);
      dimensions := dimensions + [profile];
      match profile.dimType {
        case Categorical => categoricalCount := categoricalCount + 1;
        case Numerical => numericalCount := numericalCount + 1;
        case Temporal => temporalCount := temporalCount + 1;
        case Geographic => geographicCount := geographicCount + 1;
      }
    }
  }


  /** The first-match rule list of selectChartType, over the result of analyzeData. */
  function ChooseChart(c: DataCharacteristics): ChartType
  {
    if c.geographicDimensions >= 1 && c.numericalDimensions >= 1 then Map
    else if c.temporalDimensions >= 1 && c.numericalDimensions >= 1 then
      (if c.rowCount > 50 then Line else Bar)
    else if c.categoricalDimensions == 1 && c.numericalDimensions == 1
      && (match FirstOfType(c.dimensions, Categorical)
          case Some(d) => d.cardinality <= 7
          case None => false)
    then Pie
    else if c.categoricalDimensions == 1 && c.numericalDimensions == 1 then Bar
    else if c.categoricalDimensions == 2 && c.numericalDimensions == 1 then Bar
    else if c.numericalDimensions == 2 && c.categoricalDimensions == 0 then Scatter
    else if c.rowCount > 500 || c.columnCount > 10 then Table
    else Bar
  }

  /** selectChartType. */
  function SelectChartType(data: seq<Row>): ChartType
  {
    ChooseChart(Characteristics(data))
  }

  /** The rules of selectChartType, each stated on its own, including the pie/bar boundary at 7 categories. */
  lemma SelectChartTypeRules(c: DataCharacteristics)
    requires Consistent(c)
    ensures c.geographicDimensions >= 1 && c.numericalDimensions >= 1 ==> ChooseChart(c) == Map
    ensures (c.geographicDimensions == 0 && c.temporalDimensions >= 1 && c.numericalDimensions >= 1) ==>
      (ChooseChart(c) == Line <==> c.rowCount > 50) && (ChooseChart(c) == Bar <==> c.rowCount <= 50)
    ensures (c.geographicDimensions == 0 && c.temporalDimensions == 0
      && c.categoricalDimensions == 1 && c.numericalDimensions == 1) ==>
      && FirstOfType(c.dimensions, Categorical).Some?
      && (ChooseChart(c) == Pie <==> FirstOfType(c.dimensions, Categorical).value.cardinality <= 7)
      && (ChooseChart(c) == Bar <==> FirstOfType(c.dimensions, Categorical).value.cardinality > 7)
    ensures (c.geographicDimensions == 0 && c.temporalDimensions == 0
      && c.categoricalDimensions == 2 && c.numericalDimensions == 1) ==> ChooseChart(c) == Bar
    ensures (c.geographicDimensions == 0 && c.temporalDimensions == 0
      && c.categoricalDimensions == 0 && c.numericalDimensions == 2) ==> ChooseChart(c) == Scatter
    ensures (
      && !(c.geographicDimensions >= 1 && c.numericalDimensions >= 1)
      && !(c.temporalDimensions >= 1 && c.numericalDimensions >= 1)
      && !((c.categoricalDimensions == 1 || c.categoricalDimensions == 2) && c.numericalDimensions == 1)
      && !(c.categoricalDimensions == 0 && c.numericalDimensions == 2)) ==>
      ChooseChart(c) == (if c.rowCount > 500 || c.columnCount > 10 then Table else Bar)
  {
    if c.categoricalDimensions >= 1 {
      FirstOfTypeFound(c.dimensions, Categorical);
    }
  }

  /** The reasons validateChartType gives for refusing a chart type. */
  datatype Reason =
    | NoGeographic
    | NoNumerical
    | NoTemporal
    | NoCategorical
    | TooManyCategories
    | TooFewNumerical

  /** The message text of each reason. */
  function ReasonText(r: Reason): string
  {
    match r
    case NoGeographic => "No geographic dimensions found"
    case NoNumerical => "No numerical dimensions found"
    case NoTemporal => "No temporal dimensions found for line chart"
    case NoCategorical => "No categorical dimensions found"
    case TooManyCategories => "Too many categories for pie chart (>15)"
    case TooFewNumerical => "Scatter plot requires at least 2 numerical dimensions"
  }

  /** The outcome of validateChartType: valid, or invalid with a reason. */
  datatype Validation = Validation(valid: bool, reason: Option<Reason>)

  const Accepted := Validation(true, None)

  function Rejected(reason: Reason): Validation
  {
    Validation(false, Some(reason))
  }

  /** The checks of validateChartType, over the result of analyzeData. */
  function CheckChart(chartType: ChartType, c: DataCharacteristics): (v: Validation)
    ensures v.valid <==> v.reason.None?
  {
    match chartType
    case Map =>
      if c.geographicDimensions == 0 then Rejected(NoGeographic)
      else if c.numericalDimensions == 0 then Rejected(NoNumerical)
      else Accepted
    case Line =>
      if c.temporalDimensions == 0 then Rejected(NoTemporal)
      else if c.numericalDimensions == 0 then Rejected(NoNumerical)
      else Accepted
    case Pie =>
      if c.categoricalDimensions == 0 then Rejected(NoCategorical)
      else if c.numericalDimensions == 0 then Rejected(NoNumerical)
      else
        (match FirstOfType(c.dimensions, Categorical)
         case Some(d) => if d.cardinality > 15 then Rejected(TooManyCategories) else Accepted
         case None => Accepted)
    case Scatter =>
      if c.numericalDimensions < 2 then Rejected(TooFewNumerical)
      else Accepted
    case Bar => Accepted
    case Table => Accepted
  }

  /** validateChartType: the minimum structure each chart type needs. */
  function ValidateChartType(chartType: ChartType, data: seq<Row>): Validation
  {
    CheckChart(chartType, Characteristics(data))
  }

  /**
   * Bar and table are always accepted; scatter exactly when there are two numerical columns;
   * map and line exactly when their dimension and a numerical column are present.
   */
  lemma ValidateChartTypeRules(c: DataCharacteristics)
    ensures CheckChart(Bar, c).valid && CheckChart(Table, c).valid
    ensures CheckChart(Scatter, c).valid <==> c.numericalDimensions >= 2
    ensures CheckChart(Map, c).valid <==> c.geographicDimensions >= 1 && c.numericalDimensions >= 1
    ensures CheckChart(Line, c).valid <==> c.temporalDimensions >= 1 && c.numericalDimensions >= 1
  {
  }

  /** Pie is refused for more than 15 categories exactly when it has the columns it needs. */
  lemma PieValidation(c: DataCharacteristics)
    requires Consistent(c)
    ensures CheckChart(Pie, c).valid <==>
      && c.categoricalDimensions >= 1 && c.numericalDimensions >= 1
      && FirstOfType(c.dimensions, Categorical).Some?
      && FirstOfType(c.dimensions, Categorical).value.cardinality <= 15
    ensures CheckChart(Pie, c).reason == Some(TooManyCategories) <==>
      && c.categoricalDimensions >= 1 && c.numericalDimensions >= 1
      && FirstOfType(c.dimensions, Categorical).Some?
      && FirstOfType(c.dimensions, Categorical).value.cardinality > 15
  {
    if c.categoricalDimensions >= 1 {
      FirstOfTypeFound(c.dimensions, Categorical);
    }
  }

  /** Whatever selectChartType picks, validateChartType accepts for the same data. */
  lemma SelectedChartIsValid(c: DataCharacteristics)
    requires Consistent(c)
    ensures CheckChart(ChooseChart(c), c).valid
  {
    if c.categoricalDimensions >= 1 {
      FirstOfTypeFound(c.dimensions, Categorical);
    }
  }

  /** The candidate list is reduced to its first occurrences, in push order. */
  function Alternatives(timeSeries: bool, geographic: bool, categorical: bool, smallCategory: bool,
    twoNumerical: bool): (a: seq<ChartType>)
    ensures |a| >= 1 && a[0] == Table
  {
    [Table]
    + (if timeSeries then [Line, Bar] else [])
    + (if geographic then [Map] else [])
    + (if !timeSeries && geographic then [Bar] else [])
    + (if !timeSeries && !geographic && categorical then [Bar] else [])
    + (if categorical && smallCategory then [Pie] else [])
    + (if twoNumerical then [Scatter] else [])
  }

  /** The first categorical column has at most 10 distinct values. */
  predicate SmallCategory(c: DataCharacteristics)
  {
    match FirstOfType(c.dimensions, Categorical)
    case Some(d) => d.cardinality <= 10
    case None => false
  }

  /** The alternatives suggestAlternativeCharts returns for the given characteristics. */
  function ExpectedAlternatives(c: DataCharacteristics): seq<ChartType>
  {
    var categorical := c.categoricalDimensions >= 1 && c.numericalDimensions >= 1;
    Alternatives(c.temporalDimensions >= 1 && c.numericalDimensions >= 1,
      c.geographicDimensions >= 1 && c.numericalDimensions >= 1,
      categorical, categorical && SmallCategory(c), c.numericalDimensions >= 2)
  }

  /** `if (cond) suggestions.push(...extra)`. */
  function PushIf(cond: bool, s: seq<ChartType>, extra: seq<ChartType>): (r: seq<ChartType>)
    ensures r == s + (if cond then extra else [])
  {
    assert s + [] == s;
    if cond then s + extra else s
  }

  lemma PushNew(s: seq<ChartType>, unique: seq<ChartType>, x: ChartType)
    requires Distinct(s) == unique && x !in unique
    ensures Distinct(s + [x]) == unique + [x]
  {
    DistinctSnoc(s, x);
  }

  lemma PushMaybe(s: seq<ChartType>, unique: seq<ChartType>, x: ChartType)
    requires Distinct(s) == unique
    ensures Distinct(s + [x]) == if x in unique then unique else unique + [x]
  {
    DistinctSnoc(s, x);
  }

  /** After the table and time-series pushes nothing repeats. */
  lemma TimeSeriesStage(timeSeries: bool)
    ensures var s := PushIf(timeSeries, [Table], [Line, Bar]);
      Distinct(s) == s
  {
    if timeSeries {
      assert PushIf(timeSeries, [Table], [Line, Bar]) == [Table, Line, Bar];
      TableLineBarDistinct();
    } else {
      TableDistinct();
    }
  }

  lemma TableDistinct()
    ensures Distinct([Table]) == [Table]
  {
    DistinctSnoc([], Table);
    assert [] + [Table] == [Table];
  }

  lemma TableLineDistinct()
    ensures Distinct([Table, Line]) == [Table, Line]
  {
    TableDistinct();
    assert [Table, Line][..1] == [Table];
  }

  lemma TableLineBarDistinct()
    ensures Distinct([Table, Line, Bar]) == [Table, Line, Bar]
  {
    TableLineDistinct();
    assert [Table, Line, Bar][..2] == [Table, Line];
  }

  lemma TimeSeriesMembers(timeSeries: bool)
    ensures var s := PushIf(timeSeries, [Table], [Line, Bar]);
      Map !in s && Pie !in s && Scatter !in s && (Bar in s <==> timeSeries)
  {
  }

  /** The geographic push adds the map, and the bar only when the time-series push did not. */
  lemma GeographicStage(s: seq<ChartType>, u: seq<ChartType>, timeSeries: bool, geographic: bool)
    requires Distinct(s) == u && Map !in u && (Bar in u <==> timeSeries)
    ensures Distinct(PushIf(geographic, s, [Map, Bar]))
      == PushIf(!timeSeries && geographic, PushIf(geographic, u, [Map]), [Bar])
  {
    if geographic {
      PushNew(s, u, Map);
      PushMaybe(s + [Map], u + [Map], Bar);
      assert s + [Map] + [Bar] == s + [Map, Bar];
    }
  }

  lemma GeographicMembers(u: seq<ChartType>, timeSeries: bool, geographic: bool)
    requires Pie !in u && Scatter !in u && (Bar in u <==> timeSeries)
    ensures var u' := PushIf(!timeSeries && geographic, PushIf(geographic, u, [Map]), [Bar]);
      Pie !in u' && Scatter !in u' && (Bar in u' <==> timeSeries || geographic)
  {
  }

  /** The categorical push adds the bar only when no earlier rule did, and the pie when it is new. */
  lemma CategoricalStage(s: seq<ChartType>, u: seq<ChartType>, timeSeries: bool, geographic: bool,
    categorical: bool, smallCategory: bool)
    requires Distinct(s) == u && Pie !in u && (Bar in u <==> timeSeries || geographic)
    ensures Distinct(PushIf(categorical && smallCategory, PushIf(categorical, s, [Bar]), [Pie]))
      == PushIf(categorical && smallCategory, PushIf(!timeSeries && !geographic && categorical, u, [Bar]), [Pie])
  {
    if categorical {
      PushMaybe(s, u, Bar);
      if categorical && smallCategory {
        PushNew(s + [Bar], PushIf(!timeSeries && !geographic, u, [Bar]), Pie);
      }
    }
  }

  lemma CategoricalMembers(u: seq<ChartType>, timeSeries: bool, geographic: bool,
    categorical: bool, smallCategory: bool)
    requires Scatter !in u
    ensures Scatter !in PushIf(categorical && smallCategory, PushIf(!timeSeries && !geographic && categorical, u, [Bar]), [Pie])
  {
  }

  /** The candidates suggestAlternativeCharts pushes, repeats included. */
  function Pushes(timeSeries: bool, geographic: bool, categorical: bool, smallCategory: bool,
    twoNumerical: bool): seq<ChartType>
  {
    var afterTime := PushIf(timeSeries, [Table], [Line, Bar]);
    var afterGeo := PushIf(geographic, afterTime, [Map, Bar]);
    var afterCat := PushIf(categorical && smallCategory, PushIf(categorical, afterGeo, [Bar]), [Pie]);
    PushIf(twoNumerical, afterCat, [Scatter])
  }

  /** Dropping the repeats from the pushed candidates leaves the alternatives in first-push order. */
  lemma PushesDeduplicated(timeSeries: bool, geographic: bool, categorical: bool, smallCategory: bool,
    twoNumerical: bool)
    ensures Distinct(Pushes(timeSeries, geographic, categorical, smallCategory, twoNumerical))
      == Alternatives(timeSeries, geographic, categorical, smallCategory, twoNumerical)
  {
    var s0 := PushIf(timeSeries, [Table], [Line, Bar]);
    TimeSeriesStage(timeSeries);
    TimeSeriesMembers(timeSeries);
    var s1 := PushIf(geographic, s0, [Map, Bar]);
    var u1 := PushIf(!timeSeries && geographic, PushIf(geographic, s0, [Map]), [Bar]);
    GeographicStage(s0, s0, timeSeries, geographic);
    GeographicMembers(s0, timeSeries, geographic);
    var s2 := PushIf(categorical && smallCategory, PushIf(categorical, s1, [Bar]), [Pie]);
    var u2 := PushIf(categorical && smallCategory, PushIf(!timeSeries && !geographic && categorical, u1, [Bar]), [Pie]);
    CategoricalStage(s1, u1, timeSeries, geographic, categorical, smallCategory);
    CategoricalMembers(u1, timeSeries, geographic, categorical, smallCategory);
    if twoNumerical {
      PushNew(s2, u2, Scatter);
    }
  }

  /** suggestAlternativeCharts: push the candidates of each rule, then drop repeats. */
  method SuggestAlternativeCharts(data: seq<Row>) returns (r: seq<ChartType>)
    ensures r == ExpectedAlternatives(Characteristics(data))
    ensures |r| >= 1 && r[0] == Table
    ensures NoDuplicates(r)
  {
    var c := AnalyzeData(data);
    var suggestions := PushCandidates(c);
    r := Distinct(suggestions);
    SuggestionsDeduplicated(c);
  }

  /** The candidates pushed for c. */
  function PushesOf(c: DataCharacteristics): seq<ChartType>
  {
    var categorical := c.categoricalDimensions >= 1 && c.numericalDimensions >= 1;
    Pushes(c.temporalDimensions >= 1 && c.numericalDimensions >= 1,
      c.geographicDimensions >= 1 && c.numericalDimensions >= 1,
      categorical, categorical && SmallCategory(c), c.numericalDimensions >= 2)
  }

  /** Dropping repeats from the pushes for c gives the expected alternatives, the table first. */
  lemma SuggestionsDeduplicated(c: DataCharacteristics)
    ensures Distinct(PushesOf(c)) == ExpectedAlternatives(c)
    ensures |ExpectedAlternatives(c)| >= 1 && ExpectedAlternatives(c)[0] == Table
  {
    var numerical := c.numericalDimensions >= 1;
    var timeSeries := c.temporalDimensions >= 1 && numerical;
    var geographic := c.geographicDimensions >= 1 && numerical;
    var categorical := c.categoricalDimensions >= 1 && numerical;
    var small := categorical && SmallCategory(c);
    var twoNumerical := c.numericalDimensions >= 2;
    var pushes := Pushes(timeSeries, geographic, categorical, small, twoNumerical);
    var alternatives := Alternatives(timeSeries, geographic, categorical, small, twoNumerical);
    assert PushesOf(c) == pushes;
    assert ExpectedAlternatives(c) == alternatives;
    PushesDeduplicated(timeSeries, geographic, categorical, small, twoNumerical);
  }

  /** The pushes of suggestAlternativeCharts, repeats included. */
  method PushCandidates(c: DataCharacteristics) returns (suggestions: seq<ChartType>)
    ensures suggestions == PushesOf(c)
  {
    var timeSeries := c.temporalDimensions >= 1 && c.numericalDimensions >= 1;
    var geographic := c.geographicDimensions >= 1 && c.numericalDimensions >= 1;
    var categorical := c.categoricalDimensions >= 1 && c.numericalDimensions >= 1;
    var smallCategory := false;
    suggestions := [Table];
    if timeSeries {
      suggestions := suggestions + [Line, Bar];
    }
    ghost var afterTime := suggestions;
    if geographic {
      suggestions := suggestions + [Map, Bar];
    }
    ghost var afterGeo := suggestions;
    if categorical {
      suggestions := suggestions + [Bar];
      var categoricalDim := FirstOfType(c.dimensions, Categorical);
      smallCategory := categoricalDim.Some? && categoricalDim.value.cardinality <= 10;
      if smallCategory {
        suggestions := suggestions + [Pie];
      }
    }
    ghost var afterCat := suggestions;
    if c.numericalDimensions >= 2 {
      suggestions := suggestions + [Scatter];
    }
    assert afterTime == PushIf(timeSeries, [Table], [Line, Bar]);
    assert afterGeo == PushIf(geographic, afterTime, [Map, Bar]);
    assert afterCat == PushIf(categorical && smallCategory, PushIf(categorical, afterGeo, [Bar]), [Pie]);
    assert smallCategory == (categorical && SmallCategory(c));
  }
}
