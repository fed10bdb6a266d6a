/**
 * The local NSI loader: finds the three CSV files of a dataset in its directory, rewrites
 * every data row through the code lists (the generic version of processPopulationData,
 * with a configurable value column), and keeps only the latest revision of each
 * combination of dimension values.
 */
module LocalCsv {
  import opened Wrappers
  import opened Strings
  import opened Seqs
  import opened Records
  import MultiCsv

  /** The three parsed files of one dataset. */
  datatype MultiCsvData = MultiCsvData(data: seq<Row>, fields: seq<Row>, codeLists: seq<Row>)

  /** Why a dataset cannot be loaded. */
  datatype LoadError = DirectoryNotFound(nsiId: string) | DataCsvNotFound(nsiId: string)

  /**
   * findFileByPattern: the first file of the directory listing whose name ends with the
   * pattern; None when there is none or the directory cannot be read (listing None).
   */
  function FindFileByPattern(listing: Option<seq<string>>, pattern: string): (r: Option<string>)
    ensures listing.None? ==> r.None?
    ensures listing.Some? && pattern != "" ==>
      (r.None? <==> forall i :: 0 <= i < |listing.value| ==> !EndsWith(listing.value[i], pattern))
    ensures r.Some? ==> listing.Some? && r.value in listing.value && EndsWith(r.value, pattern)
  {
    match listing
    case None => None
    case Some(files) =>
      var found := FindFirst(files, (f: string) => EndsWith(f, pattern));
      if found.Some? && found.value != "" then found else None
  }

  /** Of several matching files the first in the listing is taken. */
  lemma FindFileFirst(files: seq<string>, pattern: string, i: nat)
    requires pattern != ""
    requires i < |files| && EndsWith(files[i], pattern)
    requires forall j :: 0 <= j < i ==> !EndsWith(files[j], pattern)
    ensures FindFileByPattern(Some(files), pattern) == Some(files[i])
  {
    FindFirstAt(files, (f: string) => EndsWith(f, pattern), i);
  }

  /** An optional file's parsed rows: nothing for an absent or empty file, otherwise what the parser yields. */
  function ReadRows(file: Option<string>, read: string -> string, parse: string -> seq<Row>): seq<Row>
  {
    if file.None? then []
    else
      var text := read(file.value);
      if text == "" then [] else parse(text)
  }

  /**
   * loadLocalCsv: the directory must exist and hold a `-data.csv` file; the `-fields.csv`
   * and `-codelists.csv` files are optional. The file system and the CSV parser are the
   * parameters: whether the directory exists, its listing, reading a file, parsing a text.
   */
  function LoadLocalCsv(nsiId: string, dirExists: bool, listing: Option<seq<string>>,
                        read: string -> string, parse: string -> seq<Row>): (r: Result<MultiCsvData, LoadError>)
    ensures r == Err(DirectoryNotFound(nsiId)) <==> !dirExists
    ensures r == Err(DataCsvNotFound(nsiId)) <==> dirExists && FindFileByPattern(listing, "-data.csv").None?
    ensures r.Ok? ==> var dataFile := FindFileByPattern(listing, "-data.csv");
      dataFile.Some? && r.value.data == parse(read(dataFile.value))
    ensures r.Ok? && FindFileByPattern(listing, "-codelists.csv").None? ==> r.value.codeLists == []
    ensures r.Ok? && FindFileByPattern(listing, "-fields.csv").None? ==> r.value.fields == []
    ensures r.Ok? ==> var f := FindFileByPattern(listing, "-fields.csv");
      f.Some? ==> r.value.fields == (if read(f.value) == "" then [] else parse(read(f.value)))
    ensures r.Ok? ==> var f := FindFileByPattern(listing, "-codelists.csv");
      f.Some? ==> r.value.codeLists == (if read(f.value) == "" then [] else parse(read(f.value)))
  {
    if !dirExists then Err(DirectoryNotFound(nsiId))
    else
      var dataFile := FindFileByPattern(listing, "-data.csv");
      var fieldsFile := FindFileByPattern(listing, "-fields.csv");
      var codeListsFile := FindFileByPattern(listing, "-codelists.csv");
      if dataFile.None? then Err(DataCsvNotFound(nsiId))
      else Ok(MultiCsvData(parse(read(dataFile.value)), ReadRows(fieldsFile, read, parse), ReadRows(codeListsFile, read, parse)))
  }

  /** How processLocalDataset treats a column, by its name and whether a code list of that name exists. */
  datatype LocalColumn =
    | UnitsColumn | RevisionColumn | NutsColumn | EkatteColumn | ResidenceColumn
    | GenderColumn | AgeColumn | PeriodColumn | ValueColumn | CodedColumn | PlainColumn

  function LocalKindOf(key: string, m: MultiCsv.CodeMappings): LocalColumn
  {
    if key == "Units" then UnitsColumn
    else if key == "RevisionColumn" then RevisionColumn
    else if key == "NUTS" then NutsColumn
    else if key == "EKATTE" then EkatteColumn
    else if key == "Residence" then ResidenceColumn
    else if key == "GenderID" || key == "Gender" || key == "Gender_Child" then GenderColumn
    else if key == "Age" then AgeColumn
    else if key == "periods" || key == "Period" || key == "Edu_schYear" then PeriodColumn
    else if key == "ValueColumn" || key == "Value" then ValueColumn
    else if Str(key) in m then CodedColumn
    else PlainColumn
  }

  /** `mapping?.get(code) || fallback`: the label when the list has a non-empty one for the code. */
  function LabelOr(m: MultiCsv.CodeMappings, list: string, code: string, fallback: Val): (v: Val)
    ensures Str(list) in m && code in m[Str(list)] && Truthy(m[Str(list)][code]) ==> v == m[Str(list)][code]
    ensures !(Str(list) in m && code in m[Str(list)] && Truthy(m[Str(list)][code])) ==> v == fallback
  {
    if Str(list) in m && code in m[Str(list)] && Truthy(m[Str(list)][code]) then m[Str(list)][code] else fallback
  }

  /** `strValue === '0' ? 'Total' : strValue`. */
  function ZeroIsTotal(code: string): Val
  {
    if code == "0" then Str("Total") else Str(code)
  }

  /** `parseInt(s.replace(/\D/g, '')) || 0`: the number the digits of s spell, 0 without digits. */
  function RevisionNumber(s: string): int
  {
    MultiCsv.NumberOrZero(KeepDigits(s))
  }

  /** The effect of one source column on the record being built. */
  function LocalField(processed: Row, key: string, value: Val, m: MultiCsv.CodeMappings, valueColumnName: string): Row
  {
    KindField(LocalKindOf(key, m), processed, key, value, m, valueColumnName)
  }

  /** The fields a column of the given kind writes. */
  function KindField(kind: LocalColumn, processed: Row, key: string, value: Val, m: MultiCsv.CodeMappings, valueColumnName: string): Row
  {
    var strValue := StringOrEmpty(value);
    match kind
    case UnitsColumn => processed
    case RevisionColumn => Assign(processed, "_revision", Num(RevisionNumber(strValue)))
    case NutsColumn =>
      Assign(Assign(processed, "NUTS", LabelOr(m, key, strValue, Str(strValue))), "NUTS_Code", Str(strValue))
    case EkatteColumn =>
      Assign(Assign(processed, "EKATTE", LabelOr(m, key, strValue, Str(strValue))), "EKATTE_Code", Str(strValue))
    case ResidenceColumn =>
      Assign(Assign(processed, "Residence", LabelOr(m, key, strValue, ZeroIsTotal(strValue))), "Residence_Code", Str(strValue))
    case GenderColumn =>
      Assign(Assign(processed, "Gender", LabelOr(m, key, strValue, ZeroIsTotal(strValue))), "Gender_Code", Str(strValue))
    case AgeColumn =>
      Assign(Assign(processed, "Age", LabelOr(m, key, strValue, Str(strValue))), "Age_Code", Str(strValue))
    case PeriodColumn => Assign(processed, "Year", Str(strValue))
    case ValueColumn => Assign(processed, valueColumnName, Num(MultiCsv.NumberOrZero(strValue)))
    case CodedColumn =>
      Assign(Assign(processed, key, LabelOr(m, key, strValue, Str(strValue))), key + "_Code", Str(strValue))
    case PlainColumn => Assign(processed, key, value)
  }

  /** The record built from the columns of one source row, in order. */
  function LocalRow(row: Row, m: MultiCsv.CodeMappings, valueColumnName: string): Row
  {
    if row == [] then []
    else LocalField(LocalRow(row[..|row| - 1], m, valueColumnName), row[|row| - 1].0, row[|row| - 1].1, m, valueColumnName)
  }

  lemma LocalRowStep(row: Row, i: nat, m: MultiCsv.CodeMappings, valueColumnName: string)
    requires i < |row|
    ensures LocalRow(row[..i + 1], m, valueColumnName) ==
      LocalField(LocalRow(row[..i], m, valueColumnName), row[i].0, row[i].1, m, valueColumnName)
  {
    assert row[..i + 1][..i] == row[..i];
  }

  /**
   * The row transform of processLocalDataset: the column name picks the branch (LocalKindOf
   * is the source's chain of name tests), `Units` is dropped, every other column writes its
   * fields into the record being built.
   */
  method ProcessLocalRow(row: Row, codeMappings: MultiCsv.CodeMappings, valueColumnName: string) returns (processed: Row)
    ensures processed == LocalRow(row, codeMappings, valueColumnName)
  {
    processed := [];
    for i := 0 to |row|
      invariant processed == LocalRow(row[..i], codeMappings, valueColumnName)
    {
      LocalRowStep(row, i, codeMappings, valueColumnName);
      var (key, value) := row[i];
      var strValue := StringOrEmpty(value);
      match LocalKindOf(key, codeMappings)
      case UnitsColumn =>
      case RevisionColumn =>
        processed := Assign(processed, "_revision", Num(MultiCsv.NumberOrZero(KeepDigits(strValue))));
      case NutsColumn =>
        processed := Assign(processed, "NUTS", LabelOr(codeMappings, key, strValue, Str(strValue)));
        processed := Assign(processed, "NUTS_Code", Str(strValue));
      case EkatteColumn =>
        processed := Assign(processed, "EKATTE", LabelOr(codeMappings, key, strValue, Str(strValue)));
        processed := Assign(processed, "EKATTE_Code", Str(strValue));
      case ResidenceColumn =>
        processed := Assign(processed, "Residence", LabelOr(codeMappings, key, strValue, if strValue == "0" then Str("Total") else Str(strValue)));
        processed := Assign(processed, "Residence_Code", Str(strValue));
      case GenderColumn =>
        processed := Assign(processed, "Gender", LabelOr(codeMappings, key, strValue, if strValue == "0" then Str("Total") else Str(strValue)));
        processed := Assign(processed, "Gender_Code", Str(strValue));
      case AgeColumn =>
        processed := Assign(processed, "Age", LabelOr(codeMappings, key, strValue, Str(strValue)));
        processed := Assign(processed, "Age_Code", Str(strValue));
      case PeriodColumn =>
        processed := Assign(processed, "Year", Str(strValue));
      case ValueColumn =>
        processed := Assign(processed, valueColumnName, Num(MultiCsv.NumberOrZero(strValue)));
      case CodedColumn =>
        processed := Assign(processed, key, LabelOr(codeMappings, key, strValue, Str(strValue)));
        processed := Assign(processed, key + "_Code", Str(strValue));
      case PlainColumn =>
        processed := Assign(processed, key, value);
    }
    assert row[..|row|] == row;
  }

  /** `parts.join(sep)`. */
  function Join(parts: seq<string>, sep: string): string
  {
    if parts == [] then ""
    else if |parts| == 1 then parts[0]
    else Join(parts[..|parts| - 1], sep) + sep + parts[|parts| - 1]
  }

  /** The string form of every listed column except `_revision` and the value column, in order. */
  function KeyParts(row: Row, keys: seq<string>, valueColumnName: string): seq<string>
  {
    if keys == [] then []
    else
      var rest := KeyParts(row, keys[..|keys| - 1], valueColumnName);
      var k := keys[|keys| - 1];
      if k != "_revision" && k != valueColumnName then rest + [JsString(Get(row, k))] else rest
  }

  /**
   * Every key part is `String(row[k])` of a field the row has: the keys come from `Object.keys(row)`,
   * so no part renders a missing field.
   */
  lemma {:induction false} KeyPartsReadStoredFields(row: Row, keys: seq<string>, valueColumnName: string)
    requires forall k :: k in keys ==> k in Keys(row)
    ensures forall p :: p in KeyParts(row, keys, valueColumnName) ==>
      exists k :: k in keys && FieldValue(row, k).Some? && p == JsString(FieldValue(row, k).value)
  {
    if keys != [] {
      var init := keys[..|keys| - 1];
      var k := keys[|keys| - 1];
      KeyPartsReadStoredFields(row, init, valueColumnName);
      forall p | p in KeyParts(row, keys, valueColumnName)
        ensures exists k' :: k' in keys && FieldValue(row, k').Some? && p == JsString(FieldValue(row, k').value)
      {
        if p in KeyParts(row, init, valueColumnName) {
          var k' :| k' in init && FieldValue(row, k').Some? && p == JsString(FieldValue(row, k').value);
          assert k' in keys;
        } else {
          assert p == JsString(FieldValue(row, k).value);
        }
      }
    }
  }

  /** The identity of a row's combination of dimension values: its key parts joined with `|`. */
  function DedupKey(row: Row, valueColumnName: string): string
  {
    Join(KeyParts(row, Keys(row), valueColumnName), "|")
  }

  /** `row._revision`. */
  function Revision(row: Row): Val
  {
    Get(row, "_revision")
  }

  /** JavaScript `a > b` on revisions: only two numbers compare; a missing revision is never greater nor smaller. */
  predicate RevGreater(a: Val, b: Val)
  {
    a.Num? && b.Num? && a.n > b.n
  }

  /** The dedup key of every row, in row order. */
  function RowKeys(rows: seq<Row>, valueColumnName: string): (ks: seq<string>)
    ensures |ks| == |rows|
  {
    if rows == [] then [] else RowKeys(rows[..|rows| - 1], valueColumnName) + [DedupKey(rows[|rows| - 1], valueColumnName)]
  }

  /** Every row with its revision, in row order: the `{ row, rev }` values the Map stores. */
  function Entries(rows: seq<Row>): (es: seq<(Row, Val)>)
    ensures |es| == |rows|
  {
    if rows == [] then [] else Entries(rows[..|rows| - 1]) + [(rows[|rows| - 1], Revision(rows[|rows| - 1]))]
  }

  lemma {:induction false} RowKeysAt(rows: seq<Row>, valueColumnName: string, i: nat)
    requires i < |rows|
    ensures RowKeys(rows, valueColumnName)[i] == DedupKey(rows[i], valueColumnName)
    ensures Entries(rows)[i] == (rows[i], Revision(rows[i]))
  {
    if i < |rows| - 1 {
      RowKeysAt(rows[..|rows| - 1], valueColumnName, i);
    }
  }

  /**
   * The Map after the deduplicating loop, given the rows' keys and entries: an entry is
   * stored when its key has none yet or its revision is greater than the stored one.
   */
  function Best(keys: seq<string>, entries: seq<(Row, Val)>): (best: map<string, (Row, Val)>)
    requires |keys| == |entries|
    ensures forall k :: k in best <==> k in keys
  {
    if keys == [] then map[]
    else
      var n := |keys| - 1;
      var b := Best(keys[..n], entries[..n]);
      assert forall k :: k in keys <==> k in keys[..n] || k == keys[n];
      if keys[n] !in b || RevGreater(entries[n].1, b[keys[n]].1) then b[keys[n] := entries[n]] else b
  }

  /**
   * The deduplication of processLocalDataset: one row per key, in the order the keys first
   * appear (a JavaScript Map keeps the position of a key it overwrites), each without its
   * `_revision` field.
   */
  function Dedup(rows: seq<Row>, valueColumnName: string): (r: seq<Row>)
    ensures |r| == |Distinct(RowKeys(rows, valueColumnName))|
    ensures forall j :: 0 <= j < |r| ==> "_revision" !in Keys(r[j])
  {
    var keys := RowKeys(rows, valueColumnName);
    var best := Best(keys, Entries(rows));
    var order := Distinct(keys);
    seq(|order|, j requires 0 <= j < |order| => Remove(best[order[j]].0, "_revision"))
  }

  /** processLocalDataset after loading: rewrite every row, deduplicate when the first row has a revision, take the headers. */
  function ProcessLocal(files: MultiCsvData, valueColumnName: string): (r: MultiCsv.Processed)
    ensures r.headers == if r.rows == [] then [] else Keys(r.rows[0])
    ensures |r.rows| <= |files.data|
  {
    var m := MultiCsv.Mappings(files.codeLists);
    var rows := seq(|files.data|, i requires 0 <= i < |files.data| => LocalRow(files.data[i], m, valueColumnName));
    var kept := if rows != [] && "_revision" in Keys(rows[0]) then Dedup(rows, valueColumnName) else rows;
    MultiCsv.Processed(if kept == [] then [] else Keys(kept[0]), kept)
  }

  /** The key parts of one row: its columns other than `_revision` and the value column, as strings. */
  method KeyPartsOf(row: Row, valueColumnName: string) returns (keyParts: seq<string>)
    ensures keyParts == KeyParts(row, Keys(row), valueColumnName)
  {
    keyParts := [];
    var keys := Keys(row);
    for t := 0 to |keys|
      invariant keyParts == KeyParts(row, keys[..t], valueColumnName)
    {
      assert keys[..t + 1][..t] == keys[..t];
      var k := keys[t];
      if k != "_revision" && k != valueColumnName {
        keyParts := keyParts + [JsString(Get(row, k))];
      }
    }
    assert keys[..|keys|] == keys;
  }

  /** `keyParts.join('|')` over the row's key parts. */
  method DedupKeyOf(row: Row, valueColumnName: string) returns (key: string)
    ensures key == DedupKey(row, valueColumnName)
  {
    var keyParts := KeyPartsOf(row, valueColumnName);
    key := Join(keyParts, "|");
  }

  lemma BestStep(keys: seq<string>, entries: seq<(Row, Val)>, i: nat)
    requires |keys| == |entries| && i < |keys|
    ensures var b := Best(keys[..i], entries[..i]);
      Best(keys[..i + 1], entries[..i + 1]) ==
        if keys[i] !in b || RevGreater(entries[i].1, b[keys[i]].1) then b[keys[i] := entries[i]] else b
  {
    assert keys[..i + 1][..i] == keys[..i];
    assert entries[..i + 1][..i] == entries[..i];
  }

  /**
   * The deduplicating loop of processLocalDataset: a JavaScript Map from key to the best row
   * and its revision, modelled as the map and its keys in insertion order.
   */
  method BestByKey(rows: seq<Row>, valueColumnName: string) returns (best: map<string, (Row, Val)>, order: seq<string>)
    ensures order == Distinct(RowKeys(rows, valueColumnName))
    ensures best == Best(RowKeys(rows, valueColumnName), Entries(rows))
  {
    ghost var keys := RowKeys(rows, valueColumnName);
    ghost var entries := Entries(rows);
    best := map[];
    order := [];
    for i := 0 to |rows|
      invariant order == Distinct(keys[..i])
      invariant best == Best(keys[..i], entries[..i])
    {
      TakeSnoc(keys, i);
      DistinctSnoc(keys[..i], keys[i]);
      BestStep(keys, entries, i);
      RowKeysAt(rows, valueColumnName, i);
      var row := rows[i];
      var rev := Revision(row);
      var key := DedupKeyOf(row, valueColumnName);
      if key !in best {
        order := order + [key];
        best := best[key := (row, rev)];
      } else if RevGreater(rev, best[key].1) {
        best := best[key := (row, rev)];
      }
    }
    assert keys[..|rows|] == keys && entries[..|rows|] == entries;
  }

  /** The kept rows in the Map's order, each without its `_revision` field. */
  method Deduplicate(rows: seq<Row>, valueColumnName: string) returns (out: seq<Row>)
    ensures out == Dedup(rows, valueColumnName)
  {
    var best, order := BestByKey(rows, valueColumnName);
    out := seq(|order|, j requires 0 <= j < |order| => Remove(best[order[j]].0, "_revision"));
  }

  /** No row of a key has a greater revision than the one the Map keeps for that key. */
  lemma {:induction false} BestKeepsLatest(keys: seq<string>, entries: seq<(Row, Val)>, i: nat)
    requires |keys| == |entries| && i < |keys|
    ensures keys[i] in Best(keys, entries)
    ensures !RevGreater(entries[i].1, Best(keys, entries)[keys[i]].1)
  {
    var n := |keys| - 1;
    var b := Best(keys[..n], entries[..n]);
    BestStep(keys, entries, n);
    assert keys[..n + 1] == keys && entries[..n + 1] == entries;
    if i < n {
      BestKeepsLatest(keys[..n], entries[..n], i);
      assert keys[..n][i] == keys[i] && entries[..n][i] == entries[i];
    }
  }

  /** Every earlier entry of the same key with a numeric revision has a smaller revision than entry j. */
  predicate FirstLatest(keys: seq<string>, entries: seq<(Row, Val)>, j: nat)
    requires |keys| == |entries| && j < |keys|
  {
    forall t :: 0 <= t < j && keys[t] == keys[j] && entries[t].1.Num? ==> RevGreater(entries[j].1, entries[t].1)
  }

  lemma FirstLatestPrefix(keys: seq<string>, entries: seq<(Row, Val)>, n: nat, j: nat)
    requires |keys| == |entries| && j < n <= |keys|
    requires FirstLatest(keys[..n], entries[..n], j)
    ensures FirstLatest(keys, entries, j)
  {
    forall t | 0 <= t < j && keys[t] == keys[j] && entries[t].1.Num?
      ensures RevGreater(entries[j].1, entries[t].1)
    {
      assert keys[..n][t] == keys[t] && entries[..n][t] == entries[t];
    }
  }

  /**
   * The Map keeps, for each key, the first row carrying the greatest revision: a row of the
   * key with a numeric revision that comes earlier has a smaller one.
   */
  lemma {:induction false} BestIsFirstLatest(keys: seq<string>, entries: seq<(Row, Val)>, k: string)
    requires |keys| == |entries| && k in keys
    ensures exists j :: 0 <= j < |keys| && keys[j] == k && Best(keys, entries)[k] == entries[j] && FirstLatest(keys, entries, j)
  {
    var n := |keys| - 1;
    var b := Best(keys[..n], entries[..n]);
    BestStep(keys, entries, n);
    assert keys[..n + 1] == keys && entries[..n + 1] == entries;
    if keys[n] == k && (k !in b || RevGreater(entries[n].1, b[k].1)) {
      forall t | 0 <= t < n && keys[t] == k && entries[t].1.Num?
        ensures RevGreater(entries[n].1, entries[t].1)
      {
        assert keys[..n][t] == k;
        BestKeepsLatest(keys[..n], entries[..n], t);
        assert entries[..n][t] == entries[t];
      }
      assert FirstLatest(keys, entries, n);
    } else {
      assert k in keys[..n];
      BestIsFirstLatest(keys[..n], entries[..n], k);
      var j :| 0 <= j < n && keys[..n][j] == k && b[k] == entries[..n][j] && FirstLatest(keys[..n], entries[..n], j);
      FirstLatestPrefix(keys, entries, n, j);
      assert keys[j] == k && Best(keys, entries)[k] == entries[j];
    }
  }

  /** The column names processLocalDataset treats specially, whatever the code lists hold. */
  predicate SpecialColumn(key: string)
  {
    key == "Units" || key == "RevisionColumn" || key == "NUTS" || key == "EKATTE" || key == "Residence"
    || key == "GenderID" || key == "Gender" || key == "Gender_Child" || key == "Age"
    || key == "periods" || key == "Period" || key == "Edu_schYear" || key == "ValueColumn" || key == "Value"
  }

  /** The revision is the number the digits of the cell spell, 0 when it has none; never negative. */
  lemma RevisionDigits(s: string)
    ensures KeepDigits(s) == [] ==> RevisionNumber(s) == 0
    ensures KeepDigits(s) != [] ==> RevisionNumber(s) == DigitsValue(KeepDigits(s))
    ensures RevisionNumber(s) >= 0
  {
    if KeepDigits(s) != [] {
      ParseIntOfDigits(KeepDigits(s));
    }
  }

  /** The `Units` column is dropped. */
  lemma UnitsDropped(processed: Row, value: Val, m: MultiCsv.CodeMappings, valueColumnName: string)
    ensures LocalField(processed, "Units", value, m, valueColumnName) == processed
  {
    assert LocalKindOf("Units", m) == UnitsColumn;
  }

  /** `RevisionColumn` becomes `_revision`, a non-negative number; nothing else changes. */
  lemma RevisionRewrite(processed: Row, value: Val, m: MultiCsv.CodeMappings, valueColumnName: string)
    ensures var r := LocalField(processed, "RevisionColumn", value, m, valueColumnName);
      && Get(r, "_revision") == Num(RevisionNumber(StringOrEmpty(value)))
      && RevisionNumber(StringOrEmpty(value)) >= 0
      && forall k :: k != "_revision" ==> Get(r, k) == Get(processed, k)
  {
    assert LocalKindOf("RevisionColumn", m) == RevisionColumn;
    RevisionDigits(StringOrEmpty(value));
  }

  /**
   * `Residence` takes the code list's label first and only then treats `'0'` as `Total`
   * (processPopulationData does it the other way round); the raw code goes to `Residence_Code`.
   */
  lemma ResidenceRewrite(processed: Row, value: Val, m: MultiCsv.CodeMappings, valueColumnName: string)
    ensures var r := LocalField(processed, "Residence", value, m, valueColumnName);
      var code := StringOrEmpty(value);
      var mapped := Str("Residence") in m && code in m[Str("Residence")] && Truthy(m[Str("Residence")][code]);
      && (mapped ==> Get(r, "Residence") == m[Str("Residence")][code])
      && (!mapped && code == "0" ==> Get(r, "Residence") == Str("Total"))
      && (!mapped && code != "0" ==> Get(r, "Residence") == Str(code))
      && Get(r, "Residence_Code") == Str(code)
      && forall k :: k != "Residence" && k != "Residence_Code" ==> Get(r, k) == Get(processed, k)
  {
    var code := StringOrEmpty(value);
    assert LocalKindOf("Residence", m) == ResidenceColumn;
    var shown := LabelOr(m, "Residence", code, ZeroIsTotal(code));
    assert LocalField(processed, "Residence", value, m, valueColumnName)
      == Assign(Assign(processed, "Residence", shown), "Residence_Code", Str(code));
    AssignTwo(processed, "Residence", shown, "Residence_Code", Str(code));
  }

  /** `NUTS` becomes its code list's label, or the raw code when unmapped, with the code kept in `NUTS_Code`. */
  lemma NutsRewrite(processed: Row, value: Val, m: MultiCsv.CodeMappings, valueColumnName: string)
    ensures var r := LocalField(processed, "NUTS", value, m, valueColumnName);
      var code := StringOrEmpty(value);
      var mapped := Str("NUTS") in m && code in m[Str("NUTS")] && Truthy(m[Str("NUTS")][code]);
      && (mapped ==> Get(r, "NUTS") == m[Str("NUTS")][code])
      && (!mapped ==> Get(r, "NUTS") == Str(code))
      && Get(r, "NUTS_Code") == Str(code)
      && forall k :: k != "NUTS" && k != "NUTS_Code" ==> Get(r, k) == Get(processed, k)
  {
    var code := StringOrEmpty(value);
    assert LocalKindOf("NUTS", m) == NutsColumn;
    var shown := LabelOr(m, "NUTS", code, Str(code));
    assert LocalField(processed, "NUTS", value, m, valueColumnName)
      == Assign(Assign(processed, "NUTS", shown), "NUTS_Code", Str(code));
    AssignTwo(processed, "NUTS", shown, "NUTS_Code", Str(code));
  }

  /** `EKATTE` becomes its code list's label, or the raw code when unmapped, with the code kept in `EKATTE_Code`. */
  lemma EkatteRewrite(processed: Row, value: Val, m: MultiCsv.CodeMappings, valueColumnName: string)
    ensures var r := LocalField(processed, "EKATTE", value, m, valueColumnName);
      var code := StringOrEmpty(value);
      var mapped := Str("EKATTE") in m && code in m[Str("EKATTE")] && Truthy(m[Str("EKATTE")][code]);
      && (mapped ==> Get(r, "EKATTE") == m[Str("EKATTE")][code])
      && (!mapped ==> Get(r, "EKATTE") == Str(code))
      && Get(r, "EKATTE_Code") == Str(code)
      && forall k :: k != "EKATTE" && k != "EKATTE_Code" ==> Get(r, k) == Get(processed, k)
  {
    var code := StringOrEmpty(value);
    assert LocalKindOf("EKATTE", m) == EkatteColumn;
    var shown := LabelOr(m, "EKATTE", code, Str(code));
    assert LocalField(processed, "EKATTE", value, m, valueColumnName)
      == Assign(Assign(processed, "EKATTE", shown), "EKATTE_Code", Str(code));
    AssignTwo(processed, "EKATTE", shown, "EKATTE_Code", Str(code));
  }

  /** `Age` becomes its code list's label, or the raw code when unmapped, with the code kept in `Age_Code`. */
  lemma AgeRewrite(processed: Row, value: Val, m: MultiCsv.CodeMappings, valueColumnName: string)
    ensures var r := LocalField(processed, "Age", value, m, valueColumnName);
      var code := StringOrEmpty(value);
      var mapped := Str("Age") in m && code in m[Str("Age")] && Truthy(m[Str("Age")][code]);
      && (mapped ==> Get(r, "Age") == m[Str("Age")][code])
      && (!mapped ==> Get(r, "Age") == Str(code))
      && Get(r, "Age_Code") == Str(code)
      && forall k :: k != "Age" && k != "Age_Code" ==> Get(r, k) == Get(processed, k)
  {
    var code := StringOrEmpty(value);
    assert LocalKindOf("Age", m) == AgeColumn;
    var shown := LabelOr(m, "Age", code, Str(code));
    assert LocalField(processed, "Age", value, m, valueColumnName)
      == Assign(Assign(processed, "Age", shown), "Age_Code", Str(code));
    AssignTwo(processed, "Age", shown, "Age_Code", Str(code));
  }

  /** `GenderID`, `Gender` and `Gender_Child` become `Gender`, each through the code list of its own name. */
  lemma GenderRewrite(processed: Row, key: string, value: Val, m: MultiCsv.CodeMappings, valueColumnName: string)
    requires key == "GenderID" || key == "Gender" || key == "Gender_Child"
    ensures var r := LocalField(processed, key, value, m, valueColumnName);
      var code := StringOrEmpty(value);
      && Get(r, "Gender") == LabelOr(m, key, code, ZeroIsTotal(code))
      && Get(r, "Gender_Code") == Str(code)
      && forall k :: k != "Gender" && k != "Gender_Code" ==> Get(r, k) == Get(processed, k)
  {
    var code := StringOrEmpty(value);
    GenderField(processed, key, value, m, valueColumnName);
    AssignTwo(processed, "Gender", LabelOr(m, key, code, ZeroIsTotal(code)), "Gender_Code", Str(code));
  }

  lemma GenderField(processed: Row, key: string, value: Val, m: MultiCsv.CodeMappings, valueColumnName: string)
    requires key == "GenderID" || key == "Gender" || key == "Gender_Child"
    ensures var code := StringOrEmpty(value);
      LocalField(processed, key, value, m, valueColumnName)
      == Assign(Assign(processed, "Gender", LabelOr(m, key, code, ZeroIsTotal(code))), "Gender_Code", Str(code))
  {
    GenderKind(key, m);
  }

  lemma GenderKind(key: string, m: MultiCsv.CodeMappings)
    requires key == "GenderID" || key == "Gender" || key == "Gender_Child"
    ensures LocalKindOf(key, m) == GenderColumn
  {
  }

  /** `periods`, `Period` and `Edu_schYear` become `Year`, as a string. */
  lemma PeriodRewrite(processed: Row, key: string, value: Val, m: MultiCsv.CodeMappings, valueColumnName: string)
    requires key == "periods" || key == "Period" || key == "Edu_schYear"
    ensures var r := LocalField(processed, key, value, m, valueColumnName);
      Get(r, "Year") == Str(StringOrEmpty(value)) && forall k :: k != "Year" ==> Get(r, k) == Get(processed, k)
  {
    PeriodField(processed, key, value, m, valueColumnName);
  }

  lemma PeriodField(processed: Row, key: string, value: Val, m: MultiCsv.CodeMappings, valueColumnName: string)
    requires key == "periods" || key == "Period" || key == "Edu_schYear"
    ensures LocalField(processed, key, value, m, valueColumnName) == Assign(processed, "Year", Str(StringOrEmpty(value)))
  {
    PeriodKind(key, m);
  }

  lemma PeriodKind(key: string, m: MultiCsv.CodeMappings)
    requires key == "periods" || key == "Period" || key == "Edu_schYear"
    ensures LocalKindOf(key, m) == PeriodColumn
  {
  }

  /** `ValueColumn` and `Value` land in the caller's value column, as a number (0 when unparsable). */
  lemma ValueRewrite(processed: Row, key: string, value: Val, m: MultiCsv.CodeMappings, valueColumnName: string)
    requires key == "ValueColumn" || key == "Value"
    ensures var r := LocalField(processed, key, value, m, valueColumnName);
      && Get(r, valueColumnName) == Num(MultiCsv.NumberOrZero(StringOrEmpty(value)))
      && forall k :: k != valueColumnName ==> Get(r, k) == Get(processed, k)
  {
    ValueField(processed, key, value, m, valueColumnName);
  }

  lemma ValueField(processed: Row, key: string, value: Val, m: MultiCsv.CodeMappings, valueColumnName: string)
    requires key == "ValueColumn" || key == "Value"
    ensures LocalField(processed, key, value, m, valueColumnName)
      == Assign(processed, valueColumnName, Num(MultiCsv.NumberOrZero(StringOrEmpty(value))))
  {
    ValueKind(key, m);
  }

  lemma ValueKind(key: string, m: MultiCsv.CodeMappings)
    requires key == "ValueColumn" || key == "Value"
    ensures LocalKindOf(key, m) == ValueColumn
  {
  }

  /** Any other column with a code list of its name gets the label, and the raw code under `<key>_Code`. */
  lemma CodedColumnRewrite(processed: Row, key: string, value: Val, m: MultiCsv.CodeMappings, valueColumnName: string)
    requires !SpecialColumn(key) && Str(key) in m
    ensures var r := LocalField(processed, key, value, m, valueColumnName);
      var code := StringOrEmpty(value);
      && Get(r, key) == LabelOr(m, key, code, Str(code))
      && Get(r, key + "_Code") == Str(code)
      && forall k :: k != key && k != key + "_Code" ==> Get(r, k) == Get(processed, k)
  {
    var code := StringOrEmpty(value);
    assert LocalKindOf(key, m) == CodedColumn;
    assert key != key + "_Code" by {
      assert |key + "_Code"| != |key|;
    }
    var shown := LabelOr(m, key, code, Str(code));
    assert LocalField(processed, key, value, m, valueColumnName)
      == Assign(Assign(processed, key, shown), key + "_Code", Str(code));
    AssignTwo(processed, key, shown, key + "_Code", Str(code));
  }

  /** Any other column without a code list is copied unchanged, value and type. */
  lemma PlainColumnCopied(processed: Row, key: string, value: Val, m: MultiCsv.CodeMappings, valueColumnName: string)
    requires !SpecialColumn(key) && Str(key) !in m
    ensures var r := LocalField(processed, key, value, m, valueColumnName);
      Get(r, key) == value && forall k :: k != key ==> Get(r, k) == Get(processed, k)
  {
    assert LocalKindOf(key, m) == PlainColumn;
    assert LocalField(processed, key, value, m, valueColumnName) == Assign(processed, key, value);
  }

  lemma {:induction false} KeyPartsWithoutRevision(row: Row, keys: seq<string>, valueColumnName: string, notRevision: string -> bool)
    requires forall x :: notRevision(x) == (x != "_revision")
    ensures KeyParts(Remove(row, "_revision"), Filter(keys, notRevision), valueColumnName) == KeyParts(row, keys, valueColumnName)
  {
    if keys != [] {
      var init := keys[..|keys| - 1];
      var k := keys[|keys| - 1];
      assert keys == init + [k];
      FilterSnoc(init, k, notRevision);
      KeyPartsWithoutRevision(row, init, valueColumnName, notRevision);
      var filtered := Filter(init, notRevision);
      var row' := Remove(row, "_revision");
      if k != "_revision" {
        assert Filter(keys, notRevision) == filtered + [k];
        assert (filtered + [k])[..|filtered|] == filtered;
        assert Get(row', k) == Get(row, k);
        var tail := if k != valueColumnName then [JsString(Get(row, k))] else [];
        assert KeyParts(row', filtered + [k], valueColumnName) == KeyParts(row', filtered, valueColumnName) + tail;
        assert KeyParts(row, keys, valueColumnName) == KeyParts(row, init, valueColumnName) + tail;
      } else {
        assert Filter(keys, notRevision) == filtered;
      }
    }
  }

  /** Dropping `_revision` does not change a row's dedup key. */
  lemma DedupKeyWithoutRevision(row: Row, valueColumnName: string)
    ensures DedupKey(Remove(row, "_revision"), valueColumnName) == DedupKey(row, valueColumnName)
  {
    var notRevision := (x: string) => x != "_revision";
    FilterSame(Keys(row), (x: string) => x != "_revision", notRevision);
    KeyPartsWithoutRevision(row, Keys(row), valueColumnName, notRevision);
  }

  /** Row w of rows is the first of its key carrying the greatest revision seen so far. */
  predicate FirstWithLatest(rows: seq<Row>, valueColumnName: string, w: nat)
    requires w < |rows|
  {
    forall t :: 0 <= t < w && Revision(rows[t]).Num? && DedupKey(rows[t], valueColumnName) == DedupKey(rows[w], valueColumnName) ==>
      RevGreater(Revision(rows[w]), Revision(rows[t]))
  }

  /** The row Dedup keeps for a key is a row of that key, the first one with the greatest revision. */
  lemma KeptRow(rows: seq<Row>, valueColumnName: string, k: string) returns (w: nat)
    requires k in RowKeys(rows, valueColumnName)
    ensures w < |rows| && DedupKey(rows[w], valueColumnName) == k
    ensures Best(RowKeys(rows, valueColumnName), Entries(rows))[k] == (rows[w], Revision(rows[w]))
    ensures FirstWithLatest(rows, valueColumnName, w)
  {
    var keys, entries := RowKeys(rows, valueColumnName), Entries(rows);
    BestIsFirstLatest(keys, entries, k);
    w :| 0 <= w < |keys| && keys[w] == k && Best(keys, entries)[k] == entries[w] && FirstLatest(keys, entries, w);
    RowKeysAt(rows, valueColumnName, w);
    forall t | 0 <= t < w && Revision(rows[t]).Num? && DedupKey(rows[t], valueColumnName) == DedupKey(rows[w], valueColumnName)
      ensures RevGreater(Revision(rows[w]), Revision(rows[t]))
    {
      RowKeysAt(rows, valueColumnName, t);
    }
  }

  /** Dedup keeps exactly one row per key: the j-th output row has the j-th distinct key. */
  lemma DedupOneRowPerKey(rows: seq<Row>, valueColumnName: string)
    ensures var out := Dedup(rows, valueColumnName);
      forall j :: 0 <= j < |out| ==> DedupKey(out[j], valueColumnName) == Distinct(RowKeys(rows, valueColumnName))[j]
  {
    var out := Dedup(rows, valueColumnName);
    var order := Distinct(RowKeys(rows, valueColumnName));
    forall j | 0 <= j < |out|
      ensures DedupKey(out[j], valueColumnName) == order[j]
    {
      var w := KeptRow(rows, valueColumnName, order[j]);
      DedupKeyWithoutRevision(rows[w], valueColumnName);
    }
  }

  /**
   * Every key of the input keeps one row, and the kept row is the first of that key with the
   * greatest revision: no row of the key has a greater one, each earlier numeric one is smaller.
   */
  lemma DedupKeepsLatestRevision(rows: seq<Row>, valueColumnName: string, i: nat)
    requires i < |rows|
    ensures exists j, w :: (0 <= j < |Dedup(rows, valueColumnName)| && 0 <= w < |rows|
      && Dedup(rows, valueColumnName)[j] == Remove(rows[w], "_revision")
      && DedupKey(rows[w], valueColumnName) == DedupKey(rows[i], valueColumnName)
      && !RevGreater(Revision(rows[i]), Revision(rows[w]))
      && FirstWithLatest(rows, valueColumnName, w))
  {
    var keys, entries := RowKeys(rows, valueColumnName), Entries(rows);
    RowKeysAt(rows, valueColumnName, i);
    var k := keys[i];
    var order := Distinct(keys);
    var j := IndexOf(order, k);
    var w := KeptRow(rows, valueColumnName, k);
    BestKeepsLatest(keys, entries, i);
    assert Dedup(rows, valueColumnName)[j] == Remove(rows[w], "_revision");
  }

  /** Without `_revision` in the first rewritten row nothing is deduplicated: one record per data row. */
  lemma NoRevisionNoDedup(files: MultiCsvData, valueColumnName: string)
    requires files.data != []
    requires "_revision" !in Keys(LocalRow(files.data[0], MultiCsv.Mappings(files.codeLists), valueColumnName))
    ensures var r := ProcessLocal(files, valueColumnName);
      && |r.rows| == |files.data|
      && forall i :: 0 <= i < |files.data| ==> r.rows[i] == LocalRow(files.data[i], MultiCsv.Mappings(files.codeLists), valueColumnName)
  {
  }

  /** With `_revision` in the first rewritten row the rows are deduplicated and none keeps a `_revision`. */
  lemma RevisionDedups(files: MultiCsvData, valueColumnName: string)
    requires files.data != []
    requires "_revision" in Keys(LocalRow(files.data[0], MultiCsv.Mappings(files.codeLists), valueColumnName))
    ensures var m := MultiCsv.Mappings(files.codeLists);
      var rows := seq(|files.data|, i requires 0 <= i < |files.data| => LocalRow(files.data[i], m, valueColumnName));
      var r := ProcessLocal(files, valueColumnName);
      && r.rows == Dedup(rows, valueColumnName)
      && forall j :: 0 <= j < |r.rows| ==> "_revision" !in Keys(r.rows[j])
  {
  }
}
