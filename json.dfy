/** JSON values as Python's `json.loads` produces them. An object is an
    insertion-ordered list of key/value pairs, like a Python `dict`:
    assigning to a present key keeps its position, assigning to a new key
    appends it. */
module JsonValues {
  import opened Wrappers

  datatype Json =
    | Null
    | Bool(b: bool)
    | Num(n: real)
    | Str(s: string)
    | Arr(items: seq<Json>)
    | Obj(fields: seq<(string, Json)>)

  /** Python's `bool(v)`: None, False, zero and empty containers are false. */
  predicate Truthy(v: Json) {
    match v
    case Null => false
    case Bool(b) => b
    case Num(n) => n != 0.0
    case Str(s) => s != []
    case Arr(items) => items != []
    case Obj(fields) => fields != []
  }

  /** `list(d.keys())`. */
  function Keys(fields: seq<(string, Json)>): (ks: seq<string>)
    ensures |ks| == |fields|
    ensures forall i :: 0 <= i < |fields| ==> ks[i] == fields[i].0
  {
    if fields == [] then [] else [fields[0].0] + Keys(fields[1..])
  }

  /** `key in d`. */
  predicate HasKey(fields: seq<(string, Json)>, key: string) {
    key in Keys(fields)
  }

  predicate Distinct<T(==)>(s: seq<T>) {
    forall i, j :: 0 <= i < j < |s| ==> s[i] != s[j]
  }

  /** No key occurs twice, as in every Python dict. */
  predicate UniqueKeys(fields: seq<(string, Json)>) {
    Distinct(Keys(fields))
  }

  /** `d.get(key)`: the value stored under `key`, or None. */
  function Get(fields: seq<(string, Json)>, key: string): (r: Option<Json>)
    ensures r.Some? <==> HasKey(fields, key)
  {
    if fields == [] then None
    else if fields[0].0 == key then Some(fields[0].1)
    else Get(fields[1..], key)
  }

  /** `d.get(key, default)`. */
  function GetOr(fields: seq<(string, Json)>, key: string, default: Json): Json {
    match Get(fields, key)
    case Some(v) => v
    case None => default
  }

  /** `d[key] = value`: a present key keeps its place, a new one is appended. */
  function Put(fields: seq<(string, Json)>, key: string, value: Json): (r: seq<(string, Json)>)
    decreases |fields|
  {
    if fields == [] then [(key, value)]
    else if fields[0].0 == key then [(key, value)] + fields[1..]
    else [fields[0]] + Put(fields[1..], key, value)
  }

  /** After `d[key] = value`, `d[key]` is `value` and every other key reads
      as before. */
  lemma {:induction false} GetPut(fields: seq<(string, Json)>, key: string, value: Json, other: string)
    ensures Get(Put(fields, key, value), key) == Some(value)
    ensures other != key ==> Get(Put(fields, key, value), other) == Get(fields, other)
  {
    if fields != [] && fields[0].0 != key {
      GetPut(fields[1..], key, value, other);
    }
  }

  /** `d[key] = value` keeps the key order, appending `key` only when it is
      new. */
  lemma {:induction false} KeysPut(fields: seq<(string, Json)>, key: string, value: Json)
    ensures Keys(Put(fields, key, value)) == if HasKey(fields, key) then Keys(fields) else Keys(fields) + [key]
  {
    if fields != [] && fields[0].0 != key {
      KeysPut(fields[1..], key, value);
      assert Keys(fields) == [fields[0].0] + Keys(fields[1..]);
    } else if fields != [] {
      assert Keys(Put(fields, key, value)) == Keys(fields);
    }
  }

  /** ... and so keeps the keys unique. */
  lemma UniqueKeysPut(fields: seq<(string, Json)>, key: string, value: Json)
    requires UniqueKeys(fields)
    ensures UniqueKeys(Put(fields, key, value))
  {
    KeysPut(fields, key, value);
  }
}
