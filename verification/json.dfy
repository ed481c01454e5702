/** The JSON values the parser receives from `json.loads` and builds for output.
    An object is a Python `dict`: its entries in insertion order, keys distinct. */
module JsonValue {
  import opened Py

  datatype Json =
    | Null
    | Bool(b: bool)
    | Num(n: real)
    | Str(s: string)
    | Arr(items: seq<Json>)
    | Obj(fields: seq<(string, Json)>)

  /** `d.get(key)`: the value bound to `key` in a dict's entries, if any. */
  function Get(fields: seq<(string, Json)>, key: string): (r: Option<Json>)
    ensures r.Some? ==> exists i :: 0 <= i < |fields| && fields[i] == (key, r.value)
    ensures r.None? ==> forall i :: 0 <= i < |fields| ==> fields[i].0 != key
  {
    if |fields| == 0 then None
    else if fields[0].0 == key then Some(fields[0].1)
    else Get(fields[1..], key)
  }

  /** The entry at `i` is what a lookup of its key finds, when no earlier entry has
      that key (always so in a dict, whose keys are distinct). */
  lemma {:induction false} GetAt(fields: seq<(string, Json)>, i: nat)
    requires i < |fields|
    requires forall j :: 0 <= j < i ==> fields[j].0 != fields[i].0
    ensures Get(fields, fields[i].0) == Some(fields[i].1)
  {
    if i > 0 {
      assert fields[1..][i - 1] == fields[i];
      GetAt(fields[1..], i - 1);
    }
  }

  /** `d[key]` on a JSON value: a dict lookup that raises `KeyError` for a missing key,
      and `TypeError` when the value is not a dict (a list, str or scalar subscripted by a string). */
  function Index(j: Json, key: string): (r: Result<Json>)
    ensures r.Ok? <==> j.Obj? && Get(j.fields, key).Some?
    ensures r.Ok? ==> r.value == Get(j.fields, key).value
    ensures !j.Obj? ==> r == Raised(TypeError)
    ensures j.Obj? && Get(j.fields, key).None? ==> r == Raised(KeyError(key))
  {
    if !j.Obj? then Raised(TypeError)
    else match Get(j.fields, key)
      case None => Raised(KeyError(key))
      case Some(v) => Ok(v)
  }

  /** The keys of a dict, in insertion order. */
  function KeyStrings(fields: seq<(string, Json)>): (ks: seq<Json>)
    ensures |ks| == |fields|
    ensures forall i :: 0 <= i < |fields| ==> ks[i] == Str(fields[i].0)
  {
    if |fields| == 0 then [] else [Str(fields[0].0)] + KeyStrings(fields[1..])
  }

  /** The one-character strings of a string, in order. */
  function CharStrings(s: string): (cs: seq<Json>)
    ensures |cs| == |s|
    ensures forall i :: 0 <= i < |s| ==> cs[i] == Str([s[i]])
  {
    if |s| == 0 then [] else [Str([s[0]])] + CharStrings(s[1..])
  }

  /** `for x in j`: a list gives its items, a str its one-character strings, a dict
      its keys; `None`, booleans and numbers are not iterable and raise `TypeError`. */
  function Iterate(j: Json): (r: Result<seq<Json>>)
    ensures r.Raised? <==> j.Null? || j.Bool? || j.Num?
    ensures r.Raised? ==> r.exc == TypeError
    ensures j.Arr? ==> r == Ok(j.items)
    ensures j.Str? ==> r == Ok(CharStrings(j.s))
    ensures j.Obj? ==> r == Ok(KeyStrings(j.fields))
  {
    match j
    case Arr(items) => Ok(items)
    case Str(s) => Ok(CharStrings(s))
    case Obj(fields) => Ok(KeyStrings(fields))
    case _ => Raised(TypeError)
  }
}
