/** A JSON-like value tree standing for the Python objects the monitor
    inspects: the decoded exchange response, the results file, the reports.
    Dictionaries and object attributes are association lists in insertion
    order; a lookup returns the first entry with the key. */
module Json {
  import opened Common
  import Strings

  datatype Value =
    | Null
    | Bool(b: bool)
    | Int(i: int)
    | Float(x: real)
    | Str(s: string)
    | List(items: seq<Value>)
    | Dict(entries: seq<(string, Value)>)
      /** An SDK object exposing named attributes (`hasattr`/`getattr`). */
    | Obj(attrs: seq<(string, Value)>)

  /** The value stored under `key`, if any. */
  function Get(entries: seq<(string, Value)>, key: string): (r: Option<Value>)
    ensures r.Some? <==> exists k :: 0 <= k < |entries| && entries[k].0 == key
    ensures r.Some? ==> exists k :: 0 <= k < |entries| && entries[k] == (key, r.value)
  {
    if |entries| == 0 then None
    else if entries[0].0 == key then Some(entries[0].1)
    else
      var r := Get(entries[1..], key);
      assert forall k :: 1 <= k < |entries| ==> entries[k] == entries[1..][k - 1];
      r
  }

  predicate Has(entries: seq<(string, Value)>, key: string) {
    Get(entries, key).Some?
  }

  /** No key appears twice: what a decoded JSON object and a dict literal
      with distinct keys give. */
  predicate DistinctKeys(entries: seq<(string, Value)>) {
    forall i, j :: 0 <= i < j < |entries| ==> entries[i].0 != entries[j].0
  }

  /** With distinct keys, first-match lookup agrees with plain membership, so
      it does not matter which of several equal keys a lookup would prefer. */
  lemma GetDistinct(entries: seq<(string, Value)>, key: string, v: Value)
    requires DistinctKeys(entries)
    ensures Get(entries, key) == Some(v) <==> (key, v) in entries
  {
    if (key, v) in entries {
      var j :| 0 <= j < |entries| && entries[j] == (key, v);
      var k :| 0 <= k < |entries| && entries[k] == (key, Get(entries, key).value);
      assert k == j;
    }
  }

  /** Python truthiness (`if response:`). Objects without `__bool__` are true. */
  predicate Truthy(v: Value) {
    match v
    case Null => false
    case Bool(b) => b
    case Int(i) => i != 0
    case Float(x) => x != 0.0
    case Str(s) => s != ""
    case List(items) => |items| > 0
    case Dict(entries) => |entries| > 0
    case Obj(_) => true
  }

  /** Python `str(v)`. Integers, strings, booleans and `None` are rendered
      exactly; containers use `repr` of their elements with strings in single
      quotes (escaping is not modelled); floats and objects are rendered as
      fixed placeholders. */
  function PyStr(v: Value): (r: string)
    decreases v, 1
  {
    match v
    case Str(s) => s
    case _ => Repr(v)
  }

  function Repr(v: Value): (r: string)
    ensures |r| > 0
    decreases v, 0
  {
    match v
    case Null => "None"
    case Bool(b) => if b then "True" else "False"
    case Int(i) => Strings.IntToDecimal(i)
    case Float(_) => "<float>"
    case Str(s) => "'" + s + "'"
    case List(items) =>
      "[" + JoinComma(seq(|items|, k requires 0 <= k < |items| => Repr(items[k]))) + "]"
    case Dict(entries) =>
      "{" + JoinComma(seq(|entries|, k requires 0 <= k < |entries| =>
                             assert entries[k] in entries;
                             "'" + entries[k].0 + "': " + Repr(entries[k].1))) + "}"
    case Obj(_) => "<object>"
  }

  function JoinComma(parts: seq<string>): string {
    if |parts| == 0 then ""
    else if |parts| == 1 then parts[0]
    else parts[0] + ", " + JoinComma(parts[1..])
  }

  /** `str(v)` is empty only for the empty string. */
  lemma PyStrEmptyOnlyForEmptyString(v: Value)
    ensures PyStr(v) == "" <==> v == Str("")
  {
  }
}
