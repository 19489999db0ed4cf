/** The JSON values the importers read (`json.loads` results) and the Python
    built-ins applied to them: `str()`, truthiness and `dict.get`. */
module Json {
  import opened Wrappers
  import opened Text
  import Dicts

  /** A decoded JSON value. A float carries the text Python's `str()` prints
      for it, since shortest round-trip printing of doubles is not modelled.
      Objects keep their keys in document order. */
  datatype Value =
    | JNull
    | JBool(b: bool)
    | JInt(i: int)
    | JFloat(r: real, text: string)
    | JStr(s: string)
    | JList(items: seq<Value>)
    | JObject(fields: seq<(string, Value)>)

  /** `str(i)` for an integer. */
  function IntToString(i: int): (s: string)
    ensures s != []
  {
    if i < 0 then "-" + NatToString(-i) else NatToString(i)
  }

  /** `repr()` of a value, as used inside the printed form of a list or dict;
      strings are quoted with single quotes and no escaping. */
  function Repr(v: Value): string
    decreases v
  {
    match v
    case JNull => "None"
    case JBool(b) => if b then "True" else "False"
    case JInt(i) => IntToString(i)
    case JFloat(_, text) => text
    case JStr(s) => "'" + s + "'"
    case JList(items) => "[" + Join(seq(|items|, i requires 0 <= i < |items| => Repr(items[i])), ", ") + "]"
    case JObject(fields) =>
      "{" + Join(seq(|fields|, i requires 0 <= i < |fields| => "'" + fields[i].0 + "': " + Repr(fields[i].1)), ", ") + "}"
  }

  /** Python's `str(v)`: a string is printed bare, anything else as `repr`. */
  function Str(v: Value): (r: string)
    ensures v.JStr? ==> r == v.s
  {
    if v.JStr? then v.s else Repr(v)
  }

  /** Python truthiness (`if v`, `v or w`). */
  predicate Truthy(v: Value) {
    match v
    case JNull => false
    case JBool(b) => b
    case JInt(i) => i != 0
    case JFloat(r, _) => r != 0.0
    case JStr(s) => s != ""
    case JList(items) => items != []
    case JObject(fields) => fields != []
  }

  /** Python's `a or b`. */
  function Or(a: Value, b: Value): (r: Value)
    ensures Truthy(a) ==> r == a
    ensures !Truthy(a) ==> r == b
  {
    if Truthy(a) then a else b
  }

  /** `d.get(key)` on an object's fields: the last binding of `key`, since
      `json.loads` keeps the last of repeated keys. */
  function Get(fields: seq<(string, Value)>, key: string): (r: Option<Value>)
    ensures r.Some? <==> exists i :: 0 <= i < |fields| && fields[i].0 == key
    ensures r.Some? ==> exists i :: 0 <= i < |fields| && fields[i] == (key, r.value)
  {
    if fields == [] then None
    else
      var n := |fields| - 1;
      if fields[n].0 == key then Some(fields[n].1)
      else
        assert forall i :: 0 <= i < n ==> fields[i] == fields[..n][i];
        Get(fields[..n], key)
  }

  /** The value found is that of the last member with the key. */
  lemma {:induction false} GetLast(fields: seq<(string, Value)>, key: string, i: nat)
    requires i < |fields| && fields[i].0 == key
    requires forall j :: i < j < |fields| ==> fields[j].0 != key
    ensures Get(fields, key) == Some(fields[i].1)
  {
    var n := |fields| - 1;
    if i < n {
      assert forall j :: i < j < n ==> fields[..n][j] == fields[j];
      GetLast(fields[..n], key, i);
    }
  }

  /** The dictionary `json.loads` builds from an object's members: each key
      once, at its first position, bound to its last value. */
  function Loaded(fields: seq<(string, Value)>): (d: Dicts.Dict<string, Value>)
    ensures Dicts.DistinctKeys(d)
  {
    if fields == [] then []
    else
      var n := |fields| - 1;
      var d := Loaded(fields[..n]);
      Dicts.PutKeepsDistinct(d, fields[n].0, fields[n].1);
      Dicts.Put(d, fields[n].0, fields[n].1)
  }

  /** Looking a key up in the members finds what the loaded dictionary
      holds for it. */
  lemma {:induction false} GetLoaded(fields: seq<(string, Value)>, key: string)
    ensures Get(fields, key) == Dicts.Get(Loaded(fields), key)
  {
    if fields != [] {
      var n := |fields| - 1;
      GetLoaded(fields[..n], key);
      Dicts.GetPut(Loaded(fields[..n]), fields[n].0, fields[n].1, key);
    }
  }

  /** `v.items()`: the members of an object; any other value has no `items`
      method. */
  function Items(v: Value): (r: Option<seq<(string, Value)>>)
    ensures r.Some? <==> v.JObject?
    ensures v.JObject? ==> r.value == v.fields
  {
    if v.JObject? then Some(v.fields) else None
  }

  /** What `for x in v` visits: the items of a list, the keys of an object,
      and the characters of a string, each as a one-character string; `None`
      for a value that is not iterable (`TypeError`). */
  function Iterate(v: Value): (r: Option<seq<Value>>)
    ensures r.None? <==> v.JNull? || v.JBool? || v.JInt? || v.JFloat?
    ensures v.JList? ==> r == Some(v.items)
    ensures v.JObject? ==> r == Some(KeysOf(v.fields))
    ensures v.JStr? ==> r == Some(CharsOf(v.s))
  {
    match v
    case JList(items) => Some(items)
    case JObject(fields) => Some(KeysOf(fields))
    case JStr(s) => Some(CharsOf(s))
    case _ => None
  }

  /** The keys of an object's members, in order, as strings. */
  function KeysOf(fields: seq<(string, Value)>): (r: seq<Value>)
    ensures |r| == |fields|
    ensures forall i :: 0 <= i < |r| ==> r[i] == JStr(fields[i].0)
  {
    if fields == [] then [] else [JStr(fields[0].0)] + KeysOf(fields[1..])
  }

  /** The characters of a string, each as a one-character string. */
  function CharsOf(s: string): (r: seq<Value>)
    ensures |r| == |s|
    ensures forall i :: 0 <= i < |r| ==> r[i] == JStr([s[i]])
  {
    if s == [] then [] else [JStr([s[0]])] + CharsOf(s[1..])
  }

  /** `d.get(key)` with Python's `None` for a missing key. */
  function GetOrNull(fields: seq<(string, Value)>, key: string): Value {
    Get(fields, key).GetOr(JNull)
  }
}
