/**
 * Parsed rows as the pipeline sees them: records whose fields keep their insertion order
 * (`Object.keys` order), holding a string, a number or null.
 */
module Records {
  import opened Wrappers
  import opened Strings
  import opened Seqs

  /**
   * A cell: a string, a number (integers only in this model) or null. `Get` reads a missing
   * field as Null; `FieldValue` keeps JavaScript's `undefined` apart as None.
   */
  datatype Val = Str(s: string) | Num(n: int) | Null

  /** One column of a record and its value. */
  type Field = (string, Val)

  /** A record, its fields in insertion order. */
  type Row = seq<Field>

  /** `Object.keys(row)`. */
  function Keys(r: Row): (ks: seq<string>)
    ensures |ks| == |r|
    ensures forall i :: 0 <= i < |r| ==> ks[i] == r[i].0
  {
    if r == [] then [] else [r[0].0] + Keys(r[1..])
  }

  /** `row[k]`: the value of the field named k, Null when the record has none. */
  function Get(r: Row, k: string): (v: Val)
    ensures k !in Keys(r) ==> v == Null
    ensures k in Keys(r) ==> (k, v) in r
  {
    if r == [] then Null else if r[0].0 == k then r[0].1 else Get(r[1..], k)
  }

  /** `row[k]` with `undefined` kept apart from null: None exactly when the record has no field k. */
  function FieldValue(r: Row, k: string): (c: Option<Val>)
    ensures c.None? <==> k !in Keys(r)
    ensures c.Some? ==> (k, c.value) in r && c.value == Get(r, k)
  {
    if k in Keys(r) then Some(Get(r, k)) else None
  }

  /** `row[k] = v`: overwrites the field in place when it exists, appends it otherwise. */
  function Assign(r: Row, k: string, v: Val): (r': Row)
    ensures Get(r', k) == v
    ensures forall k' {:trigger Get(r', k')} :: k' != k ==> Get(r', k') == Get(r, k')
    ensures k in Keys(r) ==> Keys(r') == Keys(r)
    ensures k !in Keys(r) ==> Keys(r') == Keys(r) + [k]
  {
    if r == [] then [(k, v)]
    else if r[0].0 == k then
      var r' := [(k, v)] + r[1..];
      assert r'[1..] == r[1..];
      r'
    else
      var rest := Assign(r[1..], k, v);
      var r' := [r[0]] + rest;
      assert r'[0] == r[0] && r'[1..] == rest;
      r'
  }

  /** Two assignments to different fields: both values read back, every other field is untouched. */
  lemma AssignTwo(r: Row, a: string, va: Val, b: string, vb: Val)
    requires a != b
    ensures var r' := Assign(Assign(r, a, va), b, vb);
      && Get(r', a) == va && Get(r', b) == vb
      && forall k :: k != a && k != b ==> Get(r', k) == Get(r, k)
  {
  }

  /** `const { [k]: _, ...rest } = row`: the record without its field k, order kept. */
  function Remove(r: Row, k: string): (r': Row)
    ensures k !in Keys(r')
    ensures forall k' {:trigger Get(r', k')} :: k' != k ==> Get(r', k') == Get(r, k')
    ensures Keys(r') == Filter(Keys(r), (x: string) => x != k)
  {
    if r == [] then []
    else if r[0].0 == k then Remove(r[1..], k)
    else [r[0]] + Remove(r[1..], k)
  }

  /** A record as JavaScript builds one: no column twice. */
  predicate DistinctKeys(r: Row)
  {
    NoDuplicates(Keys(r))
  }

  lemma AssignKeepsDistinctKeys(r: Row, k: string, v: Val)
    requires DistinctKeys(r)
    ensures DistinctKeys(Assign(r, k, v))
  {
  }

  /** JavaScript truthiness of a cell. */
  predicate Truthy(v: Val)
  {
    match v
    case Str(s) => s != ""
    case Num(n) => n != 0
    case Null => false
  }

  /** JavaScript `a || b` on cells. */
  function Or(a: Val, b: Val): (r: Val)
    ensures Truthy(a) ==> r == a
    ensures !Truthy(a) ==> r == b
  {
    if Truthy(a) then a else b
  }

  /** `String(v)`. */
  function JsString(v: Val): string
  {
    match v
    case Str(s) => s
    case Num(n) => IntToString(n)
    case Null => "null"
  }

  /** `String(v ?? '')`. */
  function StringOrEmpty(v: Val): (s: string)
    ensures v != Null ==> s == JsString(v)
    ensures v == Null ==> s == ""
  {
    if v == Null then "" else JsString(v)
  }

  /** `data.map(row => row[k]).filter(v => v != null)`: the column's non-null values, row by row. */
  function ColumnValues(data: seq<Row>, k: string): (vs: seq<Val>)
    ensures |vs| <= |data|
    ensures Null !in vs
    ensures forall v :: v in vs <==> v != Null && exists i :: 0 <= i < |data| && Get(data[i], k) == v
  {
    if data == [] then []
    else
      var rest := ColumnValues(data[..|data| - 1], k);
      var v := Get(data[|data| - 1], k);
      assert forall i :: 0 <= i < |data| - 1 ==> Get(data[..|data| - 1][i], k) == Get(data[i], k);
      if v == Null then rest else rest + [v]
  }
}
