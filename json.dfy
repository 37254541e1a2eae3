/** JSON documents as Python's `json` module hands them over: `null`, booleans,
    integers, strings, lists and dicts. Object members keep their order and,
    as in a Python dict, each key occurs once. */
module JsonValue {
  import opened Wrappers
  import opened Text

  datatype Json =
    | JNull
    | JBool(b: bool)
    | JNum(n: int)
    | JStr(s: string)
    | JArr(items: seq<Json>)
    | JObj(fields: seq<(string, Json)>)

  predicate DistinctKeys(fields: seq<(string, Json)>) {
    forall i, j :: 0 <= i < j < |fields| ==> fields[i].0 != fields[j].0
  }

  /** A value a Python program can hold: every dict, at every depth, has
      distinct keys. */
  ghost predicate WellFormed(v: Json) {
    match v
    case JArr(items) => forall i :: 0 <= i < |items| ==> WellFormed(items[i])
    case JObj(fields) =>
      && DistinctKeys(fields)
      && forall i :: 0 <= i < |fields| ==> WellFormed(fields[i].1)
    case _ => true
  }

  /** Key order of a dict, as `dict.keys()` lists it. */
  function Keys(fields: seq<(string, Json)>): (ks: seq<string>)
    ensures |ks| == |fields| && forall i :: 0 <= i < |fields| ==> ks[i] == fields[i].0
  {
    if fields == [] then [] else [fields[0].0] + Keys(fields[1..])
  }

  /** `d.get(key)`: the value stored under `key`, if any. */
  function Get(fields: seq<(string, Json)>, key: string): Option<Json> {
    if fields == [] then None
    else if fields[0].0 == key then Some(fields[0].1)
    else Get(fields[1..], key)
  }

  /** `Get` finds exactly the keys present, with their values. */
  lemma {:induction false} GetFinds(fields: seq<(string, Json)>, key: string)
    ensures Get(fields, key).Some? <==> key in Keys(fields)
    ensures Get(fields, key).Some? ==> (key, Get(fields, key).value) in fields
  {
    if fields != [] {
      GetFinds(fields[1..], key);
      assert Keys(fields) == [fields[0].0] + Keys(fields[1..]);
    }
  }

  /** In a dict with distinct keys, the value `Get` returns is the one stored
      with the key. */
  lemma {:induction false} GetStored(fields: seq<(string, Json)>, i: int)
    requires DistinctKeys(fields) && 0 <= i < |fields|
    ensures Get(fields, fields[i].0) == Some(fields[i].1)
  {
    if i > 0 {
      GetStored(fields[1..], i - 1);
    }
  }

  /** Python truthiness of a JSON value: `None`, `False`, `0`, `""`, `[]` and
      `{}` are false. */
  predicate Truthy(v: Json) {
    match v
    case JNull => false
    case JBool(b) => b
    case JNum(n) => n != 0
    case JStr(s) => s != []
    case JArr(items) => items != []
    case JObj(fields) => fields != []
  }

  /** `repr()` of a value inside a container. String escapes are not modelled:
      a string is shown between single quotes as it is. */
  function Repr(v: Json): (r: string)
    ensures r != []
    decreases v, 3
  {
    match v
    case JStr(s) => "'" + s + "'"
    case _ => PyStr(v)
  }

  function ReprItems(ghost parent: Json, items: seq<Json>): string
    requires forall x :: x in items ==> x < parent
    decreases parent, 0, |items|
  {
    if items == [] then ""
    else
      assert items[0] in items;
      assert forall x :: x in items[1..] ==> x in items;
      if |items| == 1 then Repr(items[0])
    else Repr(items[0]) + ", " + ReprItems(parent, items[1..])
  }

  function ReprFields(ghost parent: Json, fields: seq<(string, Json)>): string
    requires forall p :: p in fields ==> p.1 < parent
    decreases parent, 0, |fields|
  {
    if fields == [] then ""
    else
      var item := "'" + fields[0].0 + "': " + Repr(fields[0].1);
      if |fields| == 1 then item else item + ", " + ReprFields(parent, fields[1..])
  }

  /** `str()` of a value: a string is itself, everything else is its Python
      rendering (`None`, `True`, `False`, digits, `[...]`, `{...}`). */
  function PyStr(v: Json): (r: string)
    ensures v.JStr? ==> r == v.s
    ensures r == [] <==> v == JStr([])
    decreases v, 2
  {
    match v
    case JNull => "None"
    case JBool(b) => if b then "True" else "False"
    case JNum(n) => IntToString(n)
    case JStr(s) => s
    case JArr(items) => "[" + ReprItems(v, items) + "]"
    case JObj(fields) =>
      assert forall p :: p in fields ==> p.1 < p < v;
      "{" + ReprFields(v, fields) + "}"
  }
}
