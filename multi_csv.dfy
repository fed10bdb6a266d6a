/**
 * NSI multi-CSV processing: the code lists become a two-level lookup (code list, code) to
 * label, and every data row is rewritten column by column, resolving codes to labels and
 * renaming the period and value columns.
 */
module MultiCsv {
  import opened Wrappers
  import opened Strings
  import opened Seqs
  import opened Records

  /** The code-list lookup: code list name, then code, to label. */
  type CodeMappings = map<Val, map<string, Val>>

  /** The column holding the English name of a code-list entry. */
  function EnglishNameColumn(): string
  {
    "Name of Code list or Code in English"
  }

  /** `entry['Code list']`. */
  function CodeListOf(entry: Row): Val
  {
    Get(entry, "Code list")
  }

  /** `String(entry['Code'] ?? '')`: codes are always strings, a missing code is empty. */
  function CodeOf(entry: Row): string
  {
    StringOrEmpty(Get(entry, "Code"))
  }

  /** The first non-empty of the English-name column, `Name_en` and `Name`, else the code itself. */
  function LabelOf(entry: Row): Val
  {
    Or(Or(Or(Get(entry, EnglishNameColumn()), Get(entry, "Name_en")), Get(entry, "Name")), Str(CodeOf(entry)))
  }

  /** A code is the string form of the `Code` cell, or empty without one. */
  lemma CodeChoice(entry: Row)
    ensures Get(entry, "Code") == Null ==> CodeOf(entry) == ""
    ensures Get(entry, "Code") != Null ==> CodeOf(entry) == JsString(Get(entry, "Code"))
  {
  }

  /** The label is the first non-empty name column, in the order English name, `Name_en`, `Name`, else the code. */
  lemma LabelChoice(entry: Row)
    ensures var en, nameEn, name := Get(entry, EnglishNameColumn()), Get(entry, "Name_en"), Get(entry, "Name");
      && (Truthy(en) ==> LabelOf(entry) == en)
      && (!Truthy(en) && Truthy(nameEn) ==> LabelOf(entry) == nameEn)
      && (!Truthy(en) && !Truthy(nameEn) && Truthy(name) ==> LabelOf(entry) == name)
      && (!Truthy(en) && !Truthy(nameEn) && !Truthy(name) ==> LabelOf(entry) == Str(CodeOf(entry)))
  {
  }

  /** What one code-list entry stores: a label under (list, code). */
  datatype Definition = Definition(list: Val, code: string, name: Val)

  /** An entry without a code list stores nothing; any other stores its label under its list and code. */
  function DefinitionOf(entry: Row): Option<Definition>
  {
    var codeList := CodeListOf(entry);
    if !Truthy(codeList) then None else Some(Definition(codeList, CodeOf(entry), LabelOf(entry)))
  }

  /** `mappings.get(list).set(code, label)`, creating the inner map on first use. */
  function AddDefinition(m: CodeMappings, d: Option<Definition>): CodeMappings
  {
    match d
    case None => m
    case Some(Definition(list, code, name)) =>
      var inner := if list in m then m[list] else map[];
      m[list := inner[code := name]]
  }

  /** The lookup built from the entries in order, each through def. */
  function Build<T>(entries: seq<T>, def: T -> Option<Definition>): CodeMappings
  {
    if entries == [] then map[] else AddDefinition(Build(entries[..|entries| - 1], def), def(entries[|entries| - 1]))
  }

  /** The lookup createCodeMappings builds from the code-list entries. */
  function Mappings(entries: seq<Row>): CodeMappings
  {
    Build(entries, DefinitionOf)
  }

  /** createCodeMappings: one pass over the code-list entries. */
  method CreateCodeMappings(codeLists: seq<Row>) returns (mappings: CodeMappings)
    ensures mappings == Mappings(codeLists)
  {
    mappings := map[];
    for i := 0 to |codeLists|
      invariant mappings == Mappings(codeLists[..i])
    {
      MappingsStep(codeLists, i);
      var entry := codeLists[i];
      var codeList := CodeListOf(entry);
      var code := CodeOf(entry);
      var name := LabelOf(entry);
      if !Truthy(codeList) {
        assert DefinitionOf(entry) == None;
        continue;
      }
      assert DefinitionOf(entry) == Some(Definition(codeList, code, name));
      ghost var before := mappings;
      if codeList !in mappings {
        mappings := mappings[codeList := map[]];
      }
      mappings := mappings[codeList := mappings[codeList][code := name]];
      AddDefinitionCreates(before, codeList, code, name);
    }
    assert codeLists[..|codeLists|] == codeLists;
  }

  /** Creating the inner map when missing and then setting the code is adding the definition. */
  lemma AddDefinitionCreates(m: CodeMappings, list: Val, code: string, name: Val)
    ensures var m1 := if list !in m then m[list := map[]] else m;
      m1[list := m1[list][code := name]] == AddDefinition(m, Some(Definition(list, code, name)))
  {
  }

  lemma MappingsStep(entries: seq<Row>, i: nat)
    requires i < |entries|
    ensures Mappings(entries[..i + 1]) == AddDefinition(Mappings(entries[..i]), DefinitionOf(entries[i]))
  {
    assert entries[..i + 1][..i] == entries[..i];
  }

  /** d stores something under (list, code). */
  predicate Defines(d: Option<Definition>, list: Val, code: string)
  {
    d.Some? && d.value.list == list && d.value.code == code
  }

  /** One definition changes the lookup only at the (list, code) pair it defines. */
  lemma AddDefinitionLookup(m: CodeMappings, d: Option<Definition>, list: Val, code: string)
    ensures var m' := AddDefinition(m, d);
      && ((list in m' && code in m'[list]) <==> Defines(d, list, code) || (list in m && code in m[list]))
      && (Defines(d, list, code) ==> m'[list][code] == d.value.name)
      && (!Defines(d, list, code) && list in m && code in m[list] ==> m'[list][code] == m[list][code])
  {
  }

  lemma {:induction false} BuildDomain<T>(entries: seq<T>, def: T -> Option<Definition>, list: Val, code: string)
    ensures (list in Build(entries, def) && code in Build(entries, def)[list]) <==>
      exists i :: 0 <= i < |entries| && Defines(def(entries[i]), list, code)
  {
    if entries != [] {
      var init := entries[..|entries| - 1];
      var last := entries[|entries| - 1];
      BuildDomain(init, def, list, code);
      AddDefinitionLookup(Build(init, def), def(last), list, code);
      if Defines(def(last), list, code) {
        assert entries[|entries| - 1] == last;
      } else if exists i :: 0 <= i < |init| && Defines(def(init[i]), list, code) {
        var i :| 0 <= i < |init| && Defines(def(init[i]), list, code);
        assert entries[i] == init[i];
      } else {
        forall i | 0 <= i < |entries| ensures !Defines(def(entries[i]), list, code) {
          if i < |init| {
            assert entries[i] == init[i];
          }
        }
      }
    }
  }

  lemma {:induction false} BuildLastWins<T>(entries: seq<T>, def: T -> Option<Definition>, list: Val, code: string, i: nat)
    requires i < |entries| && Defines(def(entries[i]), list, code)
    requires forall j :: i < j < |entries| ==> !Defines(def(entries[j]), list, code)
    ensures list in Build(entries, def) && code in Build(entries, def)[list]
    ensures Build(entries, def)[list][code] == def(entries[i]).value.name
  {
    var init := entries[..|entries| - 1];
    AddDefinitionLookup(Build(init, def), def(entries[|entries| - 1]), list, code);
    if i < |entries| - 1 {
      assert forall j :: i < j < |init| ==> init[j] == entries[j];
      BuildLastWins(init, def, list, code, i);
    }
  }

  /** The entry has a code list, it is list, and its code string is code. */
  predicate EntryDefines(entry: Row, list: Val, code: string)
  {
    Truthy(CodeListOf(entry)) && CodeListOf(entry) == list && CodeOf(entry) == code
  }

  /** A (list, code) pair is in the lookup exactly when some entry defines it; entries without a code list are skipped. */
  lemma MappingsDomain(entries: seq<Row>, list: Val, code: string)
    ensures (list in Mappings(entries) && code in Mappings(entries)[list]) <==>
      exists i :: 0 <= i < |entries| && EntryDefines(entries[i], list, code)
  {
    BuildDomain(entries, DefinitionOf, list, code);
    assert forall i :: 0 <= i < |entries| ==>
      (Defines(DefinitionOf(entries[i]), list, code) <==> EntryDefines(entries[i], list, code));
  }

  /** The lookup holds the label of the last entry defining the pair: a later entry overwrites an earlier one. */
  lemma LastEntryWins(entries: seq<Row>, list: Val, code: string, i: nat)
    requires i < |entries| && EntryDefines(entries[i], list, code)
    requires forall j :: i < j < |entries| ==> !EntryDefines(entries[j], list, code)
    ensures list in Mappings(entries) && code in Mappings(entries)[list]
    ensures Mappings(entries)[list][code] == LabelOf(entries[i])
  {
    assert forall j :: 0 <= j < |entries| ==>
      (Defines(DefinitionOf(entries[j]), list, code) <==> EntryDefines(entries[j], list, code));
    BuildLastWins(entries, DefinitionOf, list, code, i);
  }

  /** Only entries with a code list are ever stored: every stored list is truthy. */
  lemma {:induction false} MappingsKeys(entries: seq<Row>)
    ensures forall list :: list in Mappings(entries) ==> Truthy(list)
  {
    if entries != [] {
      MappingsKeys(entries[..|entries| - 1]);
    }
  }

  /** `map?.get(code) || code`: the label when the list has a non-empty one for the code, else the code. */
  function MappedOr(m: CodeMappings, list: string, code: string): (v: Val)
    ensures Str(list) in m && code in m[Str(list)] && Truthy(m[Str(list)][code]) ==> v == m[Str(list)][code]
    ensures !(Str(list) in m && code in m[Str(list)] && Truthy(m[Str(list)][code])) ==> v == Str(code)
  {
    if Str(list) in m && code in m[Str(list)] && Truthy(m[Str(list)][code]) then m[Str(list)][code] else Str(code)
  }

  /** `parseFloat(s) || 0` on the integer part: the parsed number, or 0 when there is none. */
  function NumberOrZero(s: string): (n: int)
    ensures ParseInt(s).Some? ==> n == ParseInt(s).value
    ensures ParseInt(s).None? ==> n == 0
  {
    match ParseInt(s)
    case Some(x) => x
    case None => 0
  }

  /** The column names processPopulationData rewrites. */
  predicate PopulationColumn(key: string)
  {
    key == "NUTS" || key == "Residence" || key == "GenderID" || key == "Gender" || key == "Age"
    || key == "periods" || key == "Period" || key == "ValueColumn" || key == "Value"
  }

  /** `'0'` is the total; any other code goes through the code list. */
  function TotalOrMapped(m: CodeMappings, list: string, code: string): Val
  {
    if code == "0" then Str("Total") else MappedOr(m, list, code)
  }

  /** How processPopulationData treats a column, by its name. */
  datatype ColumnKind = NutsColumn | ResidenceColumn | GenderColumn | AgeColumn | PeriodColumn | ValueColumn | OtherColumn

  function KindOf(key: string): (kind: ColumnKind)
    ensures kind == OtherColumn <==> !PopulationColumn(key)
  {
    if key == "NUTS" then NutsColumn
    else if key == "Residence" then ResidenceColumn
    else if key == "GenderID" || key == "Gender" then GenderColumn
    else if key == "Age" then AgeColumn
    else if key == "periods" || key == "Period" then PeriodColumn
    else if key == "ValueColumn" || key == "Value" then ValueColumn
    else OtherColumn
  }

  /** The effect of one source column on the record being built. */
  function PopulationField(processed: Row, key: string, value: Val, m: CodeMappings): Row
  {
    KindField(KindOf(key), processed, key, value, m)
  }

  /** The fields a column of the given kind writes. */
  function KindField(kind: ColumnKind, processed: Row, key: string, value: Val, m: CodeMappings): Row
  {
    var strValue := StringOrEmpty(value);
    match kind
    case NutsColumn =>
      Assign(Assign(processed, "NUTS", MappedOr(m, "NUTS", strValue)), "NUTS_Code", Str(strValue))
    case ResidenceColumn =>
      Assign(Assign(processed, "Residence", TotalOrMapped(m, "Residence", strValue)), "Residence_Code", Str(strValue))
    case GenderColumn =>
      Assign(Assign(processed, "Gender", TotalOrMapped(m, "GenderID", strValue)), "Gender_Code", Str(strValue))
    case AgeColumn =>
      Assign(Assign(processed, "Age", MappedOr(m, "Age", strValue)), "Age_Code", Str(strValue))
    case PeriodColumn =>
      Assign(processed, "Year", Str(strValue))
    case ValueColumn =>
      Assign(processed, "Population", Num(NumberOrZero(strValue)))
    case OtherColumn =>
      Assign(processed, key, value)
  }

  /** The record built from the columns of one source row, in order. */
  function PopulationRow(row: Row, m: CodeMappings): Row
  {
    if row == [] then [] else PopulationField(PopulationRow(row[..|row| - 1], m), row[|row| - 1].0, row[|row| - 1].1, m)
  }

  /** The rewritten rows and the keys of the first one. */
  datatype Processed = Processed(headers: seq<string>, rows: seq<Row>)

  /** processPopulationData: one record per source row; headers from the first record, or none. */
  function ProcessPopulation(data: seq<Row>, m: CodeMappings): (r: Processed)
    ensures |r.rows| == |data|
    ensures forall i :: 0 <= i < |data| ==> r.rows[i] == PopulationRow(data[i], m)
    ensures r.headers == if data == [] then [] else Keys(r.rows[0])
  {
    var rows := seq(|data|, i requires 0 <= i < |data| => PopulationRow(data[i], m));
    Processed(if |data| == 0 then [] else Keys(rows[0]), rows)
  }

  /** The loop body of processPopulationData for one row. */
  method ProcessPopulationRow(row: Row, m: CodeMappings) returns (processed: Row)
    ensures processed == PopulationRow(row, m)
  {
    processed := [];
    for i := 0 to |row|
      invariant processed == PopulationRow(row[..i], m)
    {
      assert row[..i + 1][..i] == row[..i];
      var (key, value) := row[i];
      var strValue := StringOrEmpty(value);
      if key == "NUTS" {
        processed := Assign(processed, "NUTS", MappedOr(m, "NUTS", strValue));
        processed := Assign(processed, "NUTS_Code", Str(strValue));
      } else if key == "Residence" {
        if strValue == "0" {
          processed := Assign(processed, "Residence", Str("Total"));
        } else {
          processed := Assign(processed, "Residence", MappedOr(m, "Residence", strValue));
        }
        processed := Assign(processed, "Residence_Code", Str(strValue));
      } else if key == "GenderID" || key == "Gender" {
        if strValue == "0" {
          processed := Assign(processed, "Gender", Str("Total"));
        } else {
          processed := Assign(processed, "Gender", MappedOr(m, "GenderID", strValue));
        }
        processed := Assign(processed, "Gender_Code", Str(strValue));
      } else if key == "Age" {
        processed := Assign(processed, "Age", MappedOr(m, "Age", strValue));
        processed := Assign(processed, "Age_Code", Str(strValue));
      } else if key == "periods" || key == "Period" {
        processed := Assign(processed, "Year", Str(strValue));
      } else if key == "ValueColumn" || key == "Value" {
        processed := Assign(processed, "Population", Num(NumberOrZero(strValue)));
      } else {
        processed := Assign(processed, key, value);
      }
    }
    assert row[..|row|] == row;
  }

  /** processPopulationData: rewrite every row, then take the headers from the first. */
  method ProcessPopulationData(data: seq<Row>, codeMappings: CodeMappings) returns (r: Processed)
    ensures r == ProcessPopulation(data, codeMappings)
  {
    var processedRows: seq<Row> := [];
    for i := 0 to |data|
      invariant |processedRows| == i
      invariant forall j :: 0 <= j < i ==> processedRows[j] == PopulationRow(data[j], codeMappings)
    {
      var processed := ProcessPopulationRow(data[i], codeMappings);
      RowsStep(data, codeMappings, i, processedRows, processed);
      processedRows := processedRows + [processed];
    }
    var headers := if |processedRows| > 0 then Keys(processedRows[0]) else [];
    r := Processed(headers, processedRows);
  }

  lemma RowsStep(data: seq<Row>, m: CodeMappings, i: nat, rows: seq<Row>, processed: Row)
    requires i < |data| && |rows| == i
    requires forall j :: 0 <= j < i ==> rows[j] == PopulationRow(data[j], m)
    requires processed == PopulationRow(data[i], m)
    ensures forall j :: 0 <= j < i + 1 ==> (rows + [processed])[j] == PopulationRow(data[j], m)
  {
    forall j | 0 <= j < i + 1 ensures (rows + [processed])[j] == PopulationRow(data[j], m) {
      if j < i {
        assert (rows + [processed])[j] == rows[j];
      }
    }
  }

  /** `NUTS` becomes the mapped label (or the raw code) plus `NUTS_Code` with the raw code; nothing else changes. */
  lemma NutsRewrite(processed: Row, value: Val, m: CodeMappings)
    ensures var r := PopulationField(processed, "NUTS", value, m);
      && Get(r, "NUTS") == MappedOr(m, "NUTS", StringOrEmpty(value))
      && Get(r, "NUTS_Code") == Str(StringOrEmpty(value))
      && forall k :: k != "NUTS" && k != "NUTS_Code" ==> Get(r, k) == Get(processed, k)
  {
    assert KindOf("NUTS") == NutsColumn;
    assert PopulationField(processed, "NUTS", value, m) == Assign(Assign(processed, "NUTS", MappedOr(m, "NUTS", StringOrEmpty(value))), "NUTS_Code", Str(StringOrEmpty(value)));
  }

  /** `Age` becomes the mapped label (or the raw code) plus `Age_Code` with the raw code; nothing else changes. */
  lemma AgeRewrite(processed: Row, value: Val, m: CodeMappings)
    ensures var r := PopulationField(processed, "Age", value, m);
      && Get(r, "Age") == MappedOr(m, "Age", StringOrEmpty(value))
      && Get(r, "Age_Code") == Str(StringOrEmpty(value))
      && forall k :: k != "Age" && k != "Age_Code" ==> Get(r, k) == Get(processed, k)
  {
    assert KindOf("Age") == AgeColumn;
    assert PopulationField(processed, "Age", value, m) == Assign(Assign(processed, "Age", MappedOr(m, "Age", StringOrEmpty(value))), "Age_Code", Str(StringOrEmpty(value)));
  }

  /** `Residence` code `'0'` is always `Total`, whatever the code list says; the raw code goes to `Residence_Code`. */
  lemma ResidenceRewrite(processed: Row, value: Val, m: CodeMappings)
    ensures var r := PopulationField(processed, "Residence", value, m);
      && Get(r, "Residence") == (if StringOrEmpty(value) == "0" then Str("Total") else MappedOr(m, "Residence", StringOrEmpty(value)))
      && Get(r, "Residence_Code") == Str(StringOrEmpty(value))
      && forall k :: k != "Residence" && k != "Residence_Code" ==> Get(r, k) == Get(processed, k)
  {
    assert KindOf("Residence") == ResidenceColumn;
    assert PopulationField(processed, "Residence", value, m) == Assign(Assign(processed, "Residence", TotalOrMapped(m, "Residence", StringOrEmpty(value))), "Residence_Code", Str(StringOrEmpty(value)));
  }

  /** `GenderID` and `Gender` both become `Gender` through the `GenderID` list, `'0'` always `Total`, raw code in `Gender_Code`. */
  lemma GenderRewrite(processed: Row, key: string, value: Val, m: CodeMappings)
    requires key == "GenderID" || key == "Gender"
    ensures var r := PopulationField(processed, key, value, m);
      && Get(r, "Gender") == (if StringOrEmpty(value) == "0" then Str("Total") else MappedOr(m, "GenderID", StringOrEmpty(value)))
      && Get(r, "Gender_Code") == Str(StringOrEmpty(value))
      && forall k :: k != "Gender" && k != "Gender_Code" ==> Get(r, k) == Get(processed, k)
  {
    GenderField(processed, key, value, m);
    AssignTwo(processed, "Gender", TotalOrMapped(m, "GenderID", StringOrEmpty(value)), "Gender_Code", Str(StringOrEmpty(value)));
  }

  lemma GenderField(processed: Row, key: string, value: Val, m: CodeMappings)
    requires key == "GenderID" || key == "Gender"
    ensures PopulationField(processed, key, value, m)
      == Assign(Assign(processed, "Gender", TotalOrMapped(m, "GenderID", StringOrEmpty(value))), "Gender_Code", Str(StringOrEmpty(value)))
  {
    GenderKind(key);
  }

  lemma GenderKind(key: string)
    requires key == "GenderID" || key == "Gender"
    ensures KindOf(key) == GenderColumn
  {
  }

  /** `periods` and `Period` become `Year`, as a string; nothing else changes. */
  lemma PeriodRewrite(processed: Row, key: string, value: Val, m: CodeMappings)
    requires key == "periods" || key == "Period"
    ensures var r := PopulationField(processed, key, value, m);
      Get(r, "Year") == Str(StringOrEmpty(value)) && forall k :: k != "Year" ==> Get(r, k) == Get(processed, k)
  {
    PeriodField(processed, key, value, m);
  }

  lemma PeriodField(processed: Row, key: string, value: Val, m: CodeMappings)
    requires key == "periods" || key == "Period"
    ensures PopulationField(processed, key, value, m) == Assign(processed, "Year", Str(StringOrEmpty(value)))
  {
    PeriodKind(key);
  }

  lemma PeriodKind(key: string)
    requires key == "periods" || key == "Period"
    ensures KindOf(key) == PeriodColumn
  {
  }

  /** `ValueColumn` and `Value` become `Population`, the parsed number or 0; nothing else changes. */
  lemma ValueRewrite(processed: Row, key: string, value: Val, m: CodeMappings)
    requires key == "ValueColumn" || key == "Value"
    ensures var r := PopulationField(processed, key, value, m);
      && Get(r, "Population") == Num(NumberOrZero(StringOrEmpty(value)))
      && forall k :: k != "Population" ==> Get(r, k) == Get(processed, k)
  {
    ValueField(processed, key, value, m);
  }

  lemma ValueField(processed: Row, key: string, value: Val, m: CodeMappings)
    requires key == "ValueColumn" || key == "Value"
    ensures PopulationField(processed, key, value, m) == Assign(processed, "Population", Num(NumberOrZero(StringOrEmpty(value))))
  {
    ValueKind(key);
  }

  lemma ValueKind(key: string)
    requires key == "ValueColumn" || key == "Value"
    ensures KindOf(key) == ValueColumn
  {
  }

  /** A row made only of other columns, each once, comes out exactly as it went in. */
  lemma {:induction false} OtherColumnsPassThrough(row: Row, m: CodeMappings)
    requires DistinctKeys(row)
    requires forall i :: 0 <= i < |row| ==> !PopulationColumn(row[i].0)
    ensures PopulationRow(row, m) == row
  {
    if row != [] {
      var init := row[..|row| - 1];
      var k := row[|row| - 1].0;
      var v := row[|row| - 1].1;
      assert PopulationRow(init, m) == init by {
        LastKeyNew(row);
        OtherColumnsPassThrough(init, m);
      }
      assert PopulationField(init, k, v, m) == init + [(k, v)] by {
        LastKeyNew(row);
        OtherField(init, k, v, m);
        AssignAppends(init, k, v);
      }
      SplitLast(row);
    }
  }

  /** Without its last field, a record still has distinct keys, none of them the last one's. */
  lemma LastKeyNew(row: Row)
    requires row != [] && DistinctKeys(row)
    ensures DistinctKeys(row[..|row| - 1]) && row[|row| - 1].0 !in Keys(row[..|row| - 1])
  {
    assert Keys(row[..|row| - 1]) == Keys(row)[..|row| - 1];
  }

  /** Any other column is copied under its own name. */
  lemma OtherField(processed: Row, key: string, value: Val, m: CodeMappings)
    requires !PopulationColumn(key)
    ensures PopulationField(processed, key, value, m) == Assign(processed, key, value)
  {
    assert KindOf(key) == OtherColumn;
  }

  /** Assigning a new key appends the field. */
  lemma {:induction false} AssignAppends(r: Row, k: string, v: Val)
    requires k !in Keys(r)
    ensures Assign(r, k, v) == r + [(k, v)]
  {
    if r != [] {
      assert k != r[0].0;
      AssignAppends(r[1..], k, v);
    }
  }
}
