/**
 * Flattening of a JSON-stat cube into one record per cell. The cube stores its cells in one
 * flat `value` array in row-major order: the last dimension varies fastest. Each flat index is
 * decoded into one category index per dimension by repeated remainder and division, from the
 * last dimension to the first.
 */
module JsonStat {
  import opened Wrappers
  import opened Seqs
  import opened Records

  /**
   * `dimension[name].category`: its `index` and its `label`, each as the list of category
   * keys it yields (the array itself, or the keys of the object, in order), None when absent.
   */
  datatype Category = Category(index: Option<seq<string>>, labels: Option<seq<string>>)

  /** One entry of `dimension`; `category` is None when the entry has none. */
  datatype Dimension = Dimension(category: Option<Category>)

  /** The `value` field: absent, an array, or some other value of the given truthiness. */
  datatype ValueField = NoValue | ValueArray(items: seq<Val>) | ValueOther(truthy: bool)

  /**
   * A parsed JSON-stat object: `value`, the entries of the `dimension` object in key order
   * (None when absent) and the `id` array (None when absent).
   */
  datatype JsonStat = JsonStat(value: ValueField, dimension: Option<seq<(string, Dimension)>>, id: Option<seq<string>>)

  /** The two format errors, and the TypeError raised when a listed dimension has no entry. */
  datatype ConvertError = MissingValueArray | MissingDimensions | UnknownDimension(name: string)

  /** `!jsonStat.value` is false: the field is present and truthy (an array always is). */
  predicate ValuePresent(v: ValueField)
  {
    v.ValueArray? || (v.ValueOther? && v.truthy)
  }

  /** The cells the loop visits: the array's items; a non-array has no `length`, so none. */
  function Items(v: ValueField): seq<Val>
  {
    if v.ValueArray? then v.items else []
  }

  /** `dimensions[name]`: the first entry of that name, or None (undefined). */
  function LookupDimension(dimension: Option<seq<(string, Dimension)>>, name: string): (r: Option<Dimension>)
    ensures r.Some? ==> dimension.Some? && (name, r.value) in dimension.value
    ensures r.None? ==> dimension.None? || forall j :: 0 <= j < |dimension.value| ==> dimension.value[j].0 != name
  {
    if dimension.None? then None else LookupEntry(dimension.value, name)
  }

  function LookupEntry(entries: seq<(string, Dimension)>, name: string): (r: Option<Dimension>)
    ensures r.Some? ==> (name, r.value) in entries
    ensures r.None? ==> forall j :: 0 <= j < |entries| ==> entries[j].0 != name
  {
    if entries == [] then None
    else if entries[0].0 == name then Some(entries[0].1)
    else LookupEntry(entries[1..], name)
  }

  /** `dim.category?.index || dim.category?.label || []`, as a list of category keys. */
  function CategoryKeys(dim: Dimension): (keys: seq<string>)
    ensures dim.category.Some? && dim.category.value.index.Some? ==> keys == dim.category.value.index.value
    ensures dim.category.Some? && dim.category.value.index.None? && dim.category.value.labels.Some? ==>
      keys == dim.category.value.labels.value
  {
    match dim.category
    case None => []
    case Some(c) => if c.index.Some? then c.index.value else if c.labels.Some? then c.labels.value else []
  }

  /** The dimension order: `id` when it is an array, otherwise the keys of `dimension`. */
  function DimNames(js: JsonStat): (names: seq<string>)
    ensures js.id.Some? ==> names == js.id.value
    ensures js.id.None? && js.dimension.Some? ==> |names| == |js.dimension.value|
    ensures js.id.None? && js.dimension.Some? ==> forall j :: 0 <= j < |names| ==> names[j] == js.dimension.value[j].0
  {
    if js.id.Some? then js.id.value
    else if js.dimension.Some? then seq(|js.dimension.value|, j requires 0 <= j < |js.dimension.value| => js.dimension.value[j].0)
    else []
  }

  predicate Unknown(js: JsonStat, name: string)
  {
    LookupDimension(js.dimension, name).None?
  }

  /** The number of categories of each dimension. */
  function Sizes(cats: seq<seq<string>>): (sizes: seq<nat>)
    ensures |sizes| == |cats| && forall d :: 0 <= d < |cats| ==> sizes[d] == |cats[d]|
  {
    seq(|cats|, d requires 0 <= d < |cats| => |cats[d]|)
  }

  /** `remainder % dimSize`; None stands for NaN, which a zero size produces and which then propagates. */
  function DigitOf(rem: Option<nat>, size: nat): (r: Option<nat>)
    ensures r.Some? ==> r.value < size
  {
    if rem.Some? && size > 0 then Some(rem.value % size) else None
  }

  /** `Math.floor(remainder / dimSize)`, with NaN (and Infinity) as None. */
  function Shift(rem: Option<nat>, size: nat): Option<nat>
  {
    if rem.Some? && size > 0 then Some(rem.value / size) else None
  }

  /** The category index of every dimension, computed from the last dimension to the first. */
  function Digits(sizes: seq<nat>, rem: Option<nat>): (ds: seq<Option<nat>>)
    ensures |ds| == |sizes|
    ensures forall d :: 0 <= d < |sizes| && ds[d].Some? ==> ds[d].value < sizes[d]
  {
    if sizes == [] then []
    else
      var last := sizes[|sizes| - 1];
      Digits(sizes[..|sizes| - 1], Shift(rem, last)) + [DigitOf(rem, last)]
  }

  /** The remainder left after all of `sizes` has been consumed, from the right. */
  function Rem(sizes: seq<nat>, rem: Option<nat>): Option<nat>
  {
    if sizes == [] then rem else Rem(sizes[..|sizes| - 1], Shift(rem, sizes[|sizes| - 1]))
  }

  /** Peeling the first dimension: it is decoded last, from what the later dimensions leave. */
  lemma {:induction false} DigitsCons(s: nat, rest: seq<nat>, rem: Option<nat>)
    ensures Digits([s] + rest, rem) == [DigitOf(Rem(rest, rem), s)] + Digits(rest, rem)
    ensures Rem([s] + rest, rem) == Shift(Rem(rest, rem), s)
  {
    if rest != [] {
      var init := rest[..|rest| - 1];
      var last := rest[|rest| - 1];
      assert ([s] + rest)[..|rest|] == [s] + init;
      DigitsCons(s, init, Shift(rem, last));
    }
  }

  /** The value of one cell: the category at the decoded index, or undefined (Null). */
  function CellValue(cats: seq<string>, digit: Option<nat>): Val
  {
    if digit.Some? && digit.value < |cats| then Str(cats[digit.value]) else Null
  }

  /** The record built by assigning the dimensions from the last to the first. */
  function Cells(names: seq<string>, cats: seq<seq<string>>, digits: seq<Option<nat>>): Row
    requires |names| == |cats| == |digits|
  {
    if names == [] then []
    else Assign(Cells(names[1..], cats[1..], digits[1..]), names[0], CellValue(cats[0], digits[0]))
  }

  /** Record i of the output: its dimension cells, then `value`. */
  function RowAt(names: seq<string>, cats: seq<seq<string>>, i: nat, value: Val): Row
    requires |names| == |cats|
  {
    Assign(Cells(names, cats, Digits(Sizes(cats), Some(i))), "value", value)
  }

  /** The category lists of the given dimensions, all of which are known. */
  function CategoryLists(js: JsonStat, names: seq<string>): (cats: seq<seq<string>>)
    requires forall j :: 0 <= j < |names| ==> !Unknown(js, names[j])
    ensures |cats| == |names|
  {
    seq(|names|, j requires 0 <= j < |names| && !Unknown(js, names[j]) =>
      CategoryKeys(LookupDimension(js.dimension, names[j]).value))
  }

  /** convertJSONStatToArray: the error checks, then one record per entry of `value`. */
  function Convert(input: Option<JsonStat>): (r: Result<seq<Row>, ConvertError>)
    ensures r == Err(MissingValueArray) <==> input.None? || !ValuePresent(input.value.value)
    ensures r == Err(MissingDimensions) <==>
      input.Some? && ValuePresent(input.value.value) && input.value.dimension.None? && input.value.id.None?
    ensures r.Err? && r.error.UnknownDimension? ==> input.Some? && r.error.name in DimNames(input.value)
    ensures r.Ok? ==> input.Some? && |r.value| == |Items(input.value.value)|
    ensures r.Ok? ==> forall i :: 0 <= i < |r.value| ==> Get(r.value[i], "value") == Items(input.value.value)[i]
  {
    if input.None? || !ValuePresent(input.value.value) then Err(MissingValueArray)
    else
      var js := input.value;
      if js.dimension.None? && js.id.None? then Err(MissingDimensions)
      else
        var names := DimNames(js);
        match FindFirst(names, name => Unknown(js, name))
        case Some(name) => Err(UnknownDimension(name))
        case None =>
          var cats := CategoryLists(js, names);
          var values := Items(js.value);
          Ok(seq(|values|, i requires 0 <= i < |values| => RowAt(names, cats, i, values[i])))
  }

  /** One step of the inner loop: decoding dimension d extends the record built for dimensions d+1.. */
  lemma CellsStep(names: seq<string>, cats: seq<seq<string>>, rem: Option<nat>, d: nat)
    requires |names| == |cats| && 0 < d <= |names|
    ensures var sizes := Sizes(cats);
      && Rem(sizes[d - 1..], rem) == Shift(Rem(sizes[d..], rem), |cats[d - 1]|)
      && Cells(names[d - 1..], cats[d - 1..], Digits(sizes[d - 1..], rem))
        == Assign(Cells(names[d..], cats[d..], Digits(sizes[d..], rem)), names[d - 1],
                  CellValue(cats[d - 1], DigitOf(Rem(sizes[d..], rem), |cats[d - 1]|)))
  {
    var sizes := Sizes(cats);
    assert sizes[d - 1..] == [sizes[d - 1]] + sizes[d..];
    DigitsCons(sizes[d - 1], sizes[d..], rem);
    assert names[d - 1..][1..] == names[d..];
    assert cats[d - 1..][1..] == cats[d..];
  }

  /** When the inner loop has consumed every dimension, the record is the dimension part of RowAt. */
  lemma CellsDone(names: seq<string>, cats: seq<seq<string>>, sizes: seq<nat>, i: nat, row: Row)
    requires |names| == |cats| && sizes == Sizes(cats)
    requires row == Cells(names[0..], cats[0..], Digits(sizes[0..], Some(i)))
    ensures forall value :: Assign(row, "value", value) == RowAt(names, cats, i, value)
  {
    assert names[0..] == names && cats[0..] == cats && sizes[0..] == sizes;
  }

  /** convertJSONStatToArray: collect the category lists, then decode every flat index. */
  method ConvertJSONStatToArray(input: Option<JsonStat>) returns (r: Result<seq<Row>, ConvertError>)
    ensures r == Convert(input)
  {
    if input.None? || !ValuePresent(input.value.value) {
      return Err(MissingValueArray);
    }
    var js := input.value;
    if js.dimension.None? && js.id.None? {
      return Err(MissingDimensions);
    }
    var dimNames := DimNames(js);
    var unknown, dimCategories := CollectCategories(js, dimNames);
    if unknown.Some? {
      return Err(UnknownDimension(unknown.value));
    }
    var result: seq<Row> := [];
    var values := Items(js.value);
    for i := 0 to |values|
      invariant |result| == i
      invariant forall j :: 0 <= j < i ==> result[j] == RowAt(dimNames, dimCategories, j, values[j])
    {
      var row := DecodeRow(dimNames, dimCategories, i, values[i]);
      result := result + [row];
    }
    assert result == seq(|values|, i requires 0 <= i < |values| => RowAt(dimNames, dimCategories, i, values[i]));
    return Ok(result);
  }

  /** The first loop: the category list of every dimension, or the first dimension without an entry. */
  method CollectCategories(js: JsonStat, dimNames: seq<string>) returns (unknown: Option<string>, dimCategories: seq<seq<string>>)
    ensures unknown == FindFirst(dimNames, name => Unknown(js, name))
    ensures unknown.None? ==> forall j :: 0 <= j < |dimNames| ==> !Unknown(js, dimNames[j])
    ensures unknown.None? ==> dimCategories == CategoryLists(js, dimNames)
  {
    dimCategories := [];
    for d := 0 to |dimNames|
      invariant forall j :: 0 <= j < d ==> !Unknown(js, dimNames[j])
      invariant dimCategories == CategoryLists(js, dimNames[..d])
    {
      var dim := LookupDimension(js.dimension, dimNames[d]);
      if dim.None? {
        FindFirstAt(dimNames, name => Unknown(js, name), d);
        return Some(dimNames[d]), dimCategories;
      }
      dimCategories := dimCategories + [CategoryKeys(dim.value)];
    }
    assert dimNames[..|dimNames|] == dimNames;
    NoneUnknown(js, dimNames);
    return None, dimCategories;
  }

  lemma NoneUnknown(js: JsonStat, names: seq<string>)
    requires forall j :: 0 <= j < |names| ==> !Unknown(js, names[j])
    ensures FindFirst(names, name => Unknown(js, name)).None?
  {
  }

  /** The inner loop: record i, its dimension cells decoded from the last dimension to the first, then `value`. */
  method DecodeRow(dimNames: seq<string>, dimCategories: seq<seq<string>>, i: nat, value: Val) returns (row: Row)
    requires |dimNames| == |dimCategories|
    ensures row == RowAt(dimNames, dimCategories, i, value)
  {
    var dimSizes := Sizes(dimCategories);
    row := [];
    var remainder: Option<nat> := Some(i);
    var d := |dimNames|;
    while d > 0
      invariant 0 <= d <= |dimNames|
      invariant remainder == Rem(dimSizes[d..], Some(i))
      invariant row == Cells(dimNames[d..], dimCategories[d..], Digits(dimSizes[d..], Some(i)))
    {
      CellsStep(dimNames, dimCategories, Some(i), d);
      d := d - 1;
      var dimSize := dimSizes[d];
      var dimIndex := DigitOf(remainder, dimSize);
      remainder := Shift(remainder, dimSize);
      var dimValue := if dimIndex.Some? then Str(dimCategories[d][dimIndex.value]) else Null;
      row := Assign(row, dimNames[d], dimValue);
    }
    CellsDone(dimNames, dimCategories, dimSizes, i, row);
    row := Assign(row, "value", value);
  }

  /** validateJSONStatData: an object whose `value` is an array and which has `dimension` or `id`. */
  predicate ValidateJSONStatData(input: Option<JsonStat>)
  {
    input.Some? && input.value.value.ValueArray? && (input.value.dimension.Some? || input.value.id.Some?)
  }

  /**
   * Data that passes validation never fails the two format checks of the conversion; data that
   * fails validation is either rejected by them or has a `value` that is not an array, which
   * converts to no records.
   */
  lemma ValidatedDataConverts(input: Option<JsonStat>)
    ensures ValidateJSONStatData(input) ==> Convert(input).Ok? || Convert(input).error.UnknownDimension?
    ensures !ValidateJSONStatData(input) && Convert(input).Ok? ==> Convert(input).value == []
  {
  }

  /** The product of the dimension sizes: the number of cells of a full cube. */
  function Product(sizes: seq<nat>): nat
  {
    if sizes == [] then 1 else sizes[0] * Product(sizes[1..])
  }

  lemma {:induction false} ProductSnoc(sizes: seq<nat>, s: nat)
    ensures Product(sizes + [s]) == Product(sizes) * s
  {
    if sizes != [] {
      assert (sizes + [s])[1..] == sizes[1..] + [s];
      ProductSnoc(sizes[1..], s);
    }
  }

  /** Every category index is defined (no NaN). */
  predicate AllDefined(ds: seq<Option<nat>>)
  {
    forall d :: 0 <= d < |ds| ==> ds[d].Some?
  }

  /** Σ idx_d · stride_d, where the stride of dimension d is the product of the later sizes. */
  function StrideSum(sizes: seq<nat>, ds: seq<Option<nat>>): nat
    requires |ds| == |sizes| && AllDefined(ds)
  {
    if sizes == [] then 0 else ds[0].value * Product(sizes[1..]) + StrideSum(sizes[1..], ds[1..])
  }

  lemma {:induction false} StrideSumSnoc(sizes: seq<nat>, ds: seq<Option<nat>>, s: nat, x: nat)
    requires |ds| == |sizes| && AllDefined(ds)
    ensures StrideSum(sizes + [s], ds + [Some(x)]) == StrideSum(sizes, ds) * s + x
  {
    if sizes != [] {
      assert (sizes + [s])[1..] == sizes[1..] + [s];
      assert (ds + [Some(x)])[1..] == ds[1..] + [Some(x)];
      StrideSumSnoc(sizes[1..], ds[1..], s, x);
      ProductSnoc(sizes[1..], s);
      Distribute(ds[0].value, Product(sizes[1..]), StrideSum(sizes[1..], ds[1..]), s, x);
    }
  }

  lemma Distribute(a: int, p: int, t: int, s: int, x: int)
    ensures a * (p * s) + (t * s + x) == (a * p + t) * s + x
  {
  }

  lemma DivMod(i: nat, s: nat)
    requires s > 0
    ensures Shift(Some(i), s).value * s + i % s == i
  {
  }

  /** A remainder inside a cube of p times s cells leaves a quotient inside the cube of p cells. */
  lemma DivBound(i: nat, p: nat, s: nat)
    requires i < p * s
    ensures s > 0 && Shift(Some(i), s).value < p
  {
  }

  /**
   * Decoding inverts the row-major layout: for every index inside the cube, all category
   * indices are defined and weighting them by their strides gives the index back.
   */
  lemma {:induction false} DecodeRoundTrip(sizes: seq<nat>, i: nat)
    requires i < Product(sizes)
    ensures AllDefined(Digits(sizes, Some(i)))
    ensures StrideSum(sizes, Digits(sizes, Some(i))) == i
  {
    ProductPositive(sizes);
    DigitsDefined(sizes, Some(i));
    if sizes != [] {
      var init := sizes[..|sizes| - 1];
      var s := sizes[|sizes| - 1];
      assert sizes == init + [s];
      ProductSnoc(init, s);
      DivBound(i, Product(init), s);
      DecodeRoundTrip(init, Shift(Some(i), s).value);
      StrideSumLast(sizes, i);
      DivMod(i, s);
    }
  }

  /** A cube with cells has no empty dimension. */
  lemma {:induction false} ProductPositive(sizes: seq<nat>)
    requires Product(sizes) > 0
    ensures forall d :: 0 <= d < |sizes| ==> sizes[d] > 0
  {
    if sizes != [] {
      ProductPositive(sizes[1..]);
      assert forall d :: 1 <= d < |sizes| ==> sizes[d] == sizes[1..][d - 1];
    }
  }

  /** Without empty dimensions every category index is defined. */
  lemma {:induction false} DigitsDefined(sizes: seq<nat>, rem: Option<nat>)
    requires rem.Some? && forall d :: 0 <= d < |sizes| ==> sizes[d] > 0
    ensures AllDefined(Digits(sizes, rem))
  {
    if sizes != [] {
      DigitsDefined(sizes[..|sizes| - 1], Shift(rem, sizes[|sizes| - 1]));
    }
  }

  /** The stride sum of a full decoding is that of the smaller cube's decoding, scaled, plus the last index. */
  lemma StrideSumLast(sizes: seq<nat>, i: nat)
    requires sizes != [] && forall d :: 0 <= d < |sizes| ==> sizes[d] > 0
    ensures AllDefined(Digits(sizes, Some(i)))
    ensures AllDefined(Digits(sizes[..|sizes| - 1], Shift(Some(i), sizes[|sizes| - 1])))
    ensures var init := sizes[..|sizes| - 1];
      var s := sizes[|sizes| - 1];
      StrideSum(sizes, Digits(sizes, Some(i))) == StrideSum(init, Digits(init, Shift(Some(i), s))) * s + i % s
  {
    var init := sizes[..|sizes| - 1];
    var s := sizes[|sizes| - 1];
    assert sizes == init + [s];
    var ds := Digits(init, Shift(Some(i), s));
    assert Digits(sizes, Some(i)) == ds + [DigitOf(Some(i), s)];
    DigitsDefined(init, Shift(Some(i), s));
    DigitsDefined(sizes, Some(i));
    StrideSumSnoc(init, ds, s, DigitOf(Some(i), s).value);
  }

  /** Two different indices inside the cube decode to different category tuples. */
  lemma DecodeInjective(sizes: seq<nat>, i: nat, j: nat)
    requires i < Product(sizes) && j < Product(sizes) && i != j
    ensures Digits(sizes, Some(i)) != Digits(sizes, Some(j))
  {
    DecodeRoundTrip(sizes, i);
    DecodeRoundTrip(sizes, j);
  }

  /** A cube of one empty dimension decodes every index to undefined in every dimension. */
  lemma {:induction false} EmptyDimensionUndefined(sizes: seq<nat>, rem: Option<nat>)
    requires 0 in sizes
    ensures Rem(sizes, rem).None?
  {
    var init := sizes[..|sizes| - 1];
    if sizes[|sizes| - 1] != 0 {
      assert 0 in init by {
        var k :| 0 <= k < |sizes| && sizes[k] == 0;
        assert init[k] == 0;
      }
      EmptyDimensionUndefined(init, Shift(rem, sizes[|sizes| - 1]));
    } else if init != [] {
      NoneStaysNone(init);
    }
  }

  lemma {:induction false} NoneStaysNone(sizes: seq<nat>)
    ensures Rem(sizes, None).None?
    ensures forall d :: 0 <= d < |sizes| ==> Digits(sizes, None)[d].None?
  {
    if sizes != [] {
      NoneStaysNone(sizes[..|sizes| - 1]);
    }
  }

  /** With distinct dimension names the record's keys are the names from last to first. */
  lemma {:induction false} CellsKeys(names: seq<string>, cats: seq<seq<string>>, digits: seq<Option<nat>>)
    requires |names| == |cats| == |digits| && NoDuplicates(names)
    ensures Keys(Cells(names, cats, digits)) == Reversed(names)
  {
    if names != [] {
      CellsKeys(names[1..], cats[1..], digits[1..]);
      assert names[0] !in names[1..];
      ReversedMembership(names[1..], names[0]);
    }
  }

  /** With distinct dimension names each name holds the category its index selects. */
  lemma {:induction false} CellsGet(names: seq<string>, cats: seq<seq<string>>, digits: seq<Option<nat>>, d: nat)
    requires |names| == |cats| == |digits| && NoDuplicates(names) && d < |names|
    ensures Get(Cells(names, cats, digits), names[d]) == CellValue(cats[d], digits[d])
  {
    if d > 0 {
      assert names[0] != names[d];
      CellsGet(names[1..], cats[1..], digits[1..], d - 1);
    }
  }

  function Reversed<T>(s: seq<T>): (r: seq<T>)
    ensures |r| == |s| && forall k :: 0 <= k < |s| ==> r[k] == s[|s| - 1 - k]
  {
    if s == [] then [] else Reversed(s[1..]) + [s[0]]
  }

  lemma ReversedMembership<T>(s: seq<T>, x: T)
    ensures x in Reversed(s) <==> x in s
  {
    if x in s {
      var k :| 0 <= k < |s| && s[k] == x;
      assert Reversed(s)[|s| - 1 - k] == x;
    }
  }

  /**
   * With distinct dimension names none of which is `value`, record i has the keys of the
   * dimensions from last to first followed by `value`, each dimension holding the category
   * its decoded index selects.
   */
  lemma RowAtShape(names: seq<string>, cats: seq<seq<string>>, i: nat, value: Val)
    requires |names| == |cats| && NoDuplicates(names) && "value" !in names
    ensures Keys(RowAt(names, cats, i, value)) == Reversed(names) + ["value"]
    ensures forall d :: 0 <= d < |names| ==>
      Get(RowAt(names, cats, i, value), names[d]) == CellValue(cats[d], Digits(Sizes(cats), Some(i))[d])
  {
    var digits := Digits(Sizes(cats), Some(i));
    CellsKeys(names, cats, digits);
    ReversedMembership(names, "value");
    forall d | 0 <= d < |names|
      ensures Get(RowAt(names, cats, i, value), names[d]) == CellValue(cats[d], digits[d])
    {
      CellsGet(names, cats, digits, d);
    }
  }

  /** With A = [a1, a2] and B = [b1, b2, b3], index 4 is (a2, b2): the last dimension varies fastest. */
  lemma LastDimensionFastest()
    ensures var row := RowAt(["A", "B"], [["a1", "a2"], ["b1", "b2", "b3"]], 4, Num(7));
      Get(row, "A") == Str("a2") && Get(row, "B") == Str("b2") && Get(row, "value") == Num(7)
  {
    var names := ["A", "B"];
    var cats := [["a1", "a2"], ["b1", "b2", "b3"]];
    FourDecodes();
    var cells := Cells(names, cats, [Some(1), Some(1)]);
    assert names[1..] == ["B"] && cats[1..] == [["b1", "b2", "b3"]] && [Some(1), Some(1)][1..] == [Some(1)];
    assert cells == Assign(Cells(["B"], [["b1", "b2", "b3"]], [Some(1)]), "A", Str("a2"));
  }

  /** Index 4 over sizes [2, 3] decodes to the digits (1, 1). */
  lemma FourDecodes()
    ensures Digits(Sizes([["a1", "a2"], ["b1", "b2", "b3"]]), Some(4)) == [Some(1), Some(1)]
  {
    var sizes := Sizes([["a1", "a2"], ["b1", "b2", "b3"]]);
    assert sizes == [2, 3];
    assert sizes[..1] == [2];
    assert [2][..0] == [];
  }
}
