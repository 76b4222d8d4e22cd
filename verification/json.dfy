/** The JSON values the backend handles after `json.loads`, with the Python
    operations the generation code applies to them: truthiness, `dict.get`,
    item assignment and `for` iteration. An object keeps its keys in
    insertion order, as a Python dict does. */
module JsonValue {
  import opened Wrappers
  import Text

  datatype Json =
    | Null
    | Bool(b: bool)
    | Num(n: real)
    | Str(s: string)
    | Arr(items: seq<Json>)
    | Obj(fields: seq<(string, Json)>)

  /** Python truthiness (`bool(x)`). */
  predicate Truthy(j: Json) {
    match j
    case Null => false
    case Bool(b) => b
    case Num(n) => n != 0.0
    case Str(s) => |s| > 0
    case Arr(xs) => |xs| > 0
    case Obj(fs) => |fs| > 0
  }

  /** The keys of an object, in insertion order. */
  function Keys(fields: seq<(string, Json)>): (ks: seq<string>)
    ensures |ks| == |fields| && forall j :: 0 <= j < |fields| ==> ks[j] == fields[j].0
  {
    seq(|fields|, j requires 0 <= j < |fields| => fields[j].0)
  }

  /** Position of `key` among the fields. */
  function FieldIndex(fields: seq<(string, Json)>, key: string): Option<nat> {
    Text.IndexOf(Keys(fields), key)
  }

  predicate HasKey(fields: seq<(string, Json)>, key: string) {
    FieldIndex(fields, key).Some?
  }

  /** `d.get(key, default)`. */
  function GetOr(fields: seq<(string, Json)>, key: string, default: Json): Json {
    match FieldIndex(fields, key)
    case Some(i) => fields[i].1
    case None => default
  }

  /** `d.get(key)`, which is `None` for a missing key. */
  function Get(fields: seq<(string, Json)>, key: string): Json {
    GetOr(fields, key, Null)
  }

  /** `d[key] = v`: an existing key keeps its place, a new one goes last. */
  function SetField(fields: seq<(string, Json)>, key: string, v: Json): (r: seq<(string, Json)>)
    ensures Get(r, key) == v
    ensures forall k :: k != key ==> Get(r, k) == Get(fields, k) && (HasKey(r, k) <==> HasKey(fields, k))
    ensures HasKey(fields, key) ==> |r| == |fields| && Keys(r) == Keys(fields)
  {
    match FieldIndex(fields, key)
    case Some(i) =>
      var r := fields[i := (key, v)];
      assert Keys(r) == Keys(fields);
      r
    case None =>
      var r := fields + [(key, v)];
      assert Keys(r) == Keys(fields) + [key];
      forall k ensures FieldIndex(r, k) == if k == key then Some(|fields|) else FieldIndex(fields, k) {
        Text.IndexOfAppend(Keys(fields), key, k);
      }
      r
  }

  /** `for x in j`: a list yields its items, a string its characters, a dict
      its keys in insertion order, `None` and numbers and booleans raise
      `TypeError` (`None` here). */
  function Iterate(j: Json): (r: Option<seq<Json>>)
    ensures j.Arr? ==> r == Some(j.items)
    ensures j.Str? ==> r.Some? && |r.value| == |j.s|
                       && forall i :: 0 <= i < |j.s| ==> r.value[i] == Str([j.s[i]])
    ensures j.Obj? ==> r.Some? && |r.value| == |j.fields|
                       && forall i :: 0 <= i < |j.fields| ==> r.value[i] == Str(j.fields[i].0)
    ensures r.None? <==> j.Null? || j.Bool? || j.Num?
  {
    match j
    case Arr(xs) => Some(xs)
    case Str(s) => Some(seq(|s|, i requires 0 <= i < |s| => Str([s[i]])))
    case Obj(fs) => Some(seq(|fs|, i requires 0 <= i < |fs| => Str(fs[i].0)))
    case _ => None
  }

  /** A value `x[:50]` can be applied to without raising. */
  predicate Sliceable(j: Json) {
    j.Str? || j.Arr?
  }
}
