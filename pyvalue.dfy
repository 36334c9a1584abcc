/** A Python value as the TOML loader, the JSON loader or the GUI hands it
    to the modelled code, with Python's truthiness and `dict.get`. */
module PyValue {
  import opened Wrappers

  /** A dict keeps its items in insertion order, as Python's does. */
  datatype Value =
    | Null
    | Bool(b: bool)
    | Int(i: int)
    | Str(s: string)
    | List(items: seq<Value>)
    | Dict(entries: seq<(string, Value)>)

  /** Python's `bool(v)`. */
  predicate Truthy(v: Value) {
    match v
    case Null => false
    case Bool(b) => b
    case Int(i) => i != 0
    case Str(s) => s != []
    case List(xs) => xs != []
    case Dict(es) => es != []
  }

  /** The value stored under `key`, if any (the first item with that key). */
  function Lookup(entries: seq<(string, Value)>, key: string): (r: Option<Value>)
    ensures r.None? <==> forall k :: 0 <= k < |entries| ==> entries[k].0 != key
    ensures r.Some? ==> exists k :: 0 <= k < |entries| && entries[k] == (key, r.value)
  {
    if entries == [] then None
    else if entries[0].0 == key then Some(entries[0].1)
    else
      var r := Lookup(entries[1..], key);
      assert r.Some? ==> exists k :: 0 <= k < |entries[1..]| && entries[1..][k] == (key, r.value);
      r
  }

  /** Python's `key in d`. */
  predicate Has(entries: seq<(string, Value)>, key: string) {
    Lookup(entries, key).Some?
  }

  /** Python's `d.get(key, default)`. */
  function GetOr(entries: seq<(string, Value)>, key: string, default: Value): Value {
    match Lookup(entries, key)
    case Some(v) => v
    case None => default
  }

  /** Python's `d.get(key)`. */
  function Get(entries: seq<(string, Value)>, key: string): Value {
    GetOr(entries, key, Null)
  }

  /** The keys in iteration order (`list(d)`). */
  function Keys(entries: seq<(string, Value)>): (ks: seq<string>)
    ensures |ks| == |entries|
    ensures forall k :: 0 <= k < |entries| ==> ks[k] == entries[k].0
  {
    if entries == [] then [] else [entries[0].0] + Keys(entries[1..])
  }

  /** Python's `d[key] = v`: the value is replaced where `key` stands, or
      the item is appended when `key` is new. */
  function SetItem(entries: seq<(string, Value)>, key: string, v: Value): (r: seq<(string, Value)>)
    ensures Lookup(r, key) == Some(v)
    ensures forall k :: k != key ==> Lookup(r, k) == Lookup(entries, k)
    ensures Has(entries, key) ==> Keys(r) == Keys(entries)
    ensures !Has(entries, key) ==> r == entries + [(key, v)]
  {
    if entries == [] then [(key, v)]
    else if entries[0].0 == key then [(key, v)] + entries[1..]
    else
      var rest := SetItem(entries[1..], key, v);
      assert entries == [entries[0]] + entries[1..];
      [entries[0]] + rest
  }
}
