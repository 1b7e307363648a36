/**
 * The values `json.loads` produces, and the Python facts about them the
 * pipeline depends on: `type(v)` as printed in error messages, dictionary
 * lookup with a default, and what `for x in v` iterates over.
 */
module JsonValue {
  import opened Wrappers

  /**
   * A decoded JSON value. An object keeps its members in insertion order,
   * as a Python dict does; its keys are distinct.
   */
  datatype Json =
    | Null
    | Bool(b: bool)
    | Int(i: int)
    | Float(r: real)
    | Str(s: string)
    | Arr(items: seq<Json>)
    | Obj(fields: seq<(string, Json)>)

  /**
   * The strict decoder `json.loads`: the decoded value, or the text of the
   * `JSONDecodeError` it raises.
   */
  type Decoder = string -> Result<Json, string>

  /** Python's `float(s)` on a string: the value, or None when it raises `ValueError`. */
  type FloatParser = string -> Option<real>

  /** `str(type(v))`. */
  function TypeName(v: Json): string {
    match v
    case Null => "<class 'NoneType'>"
    case Bool(_) => "<class 'bool'>"
    case Int(_) => "<class 'int'>"
    case Float(_) => "<class 'float'>"
    case Str(_) => "<class 'str'>"
    case Arr(_) => "<class 'list'>"
    case Obj(_) => "<class 'dict'>"
  }

  /** `d.get(key, default)` on the members of a dict. */
  function Get(fields: seq<(string, Json)>, key: string, default: Json): (v: Json)
    ensures (forall i :: 0 <= i < |fields| ==> fields[i].0 != key) ==> v == default
  {
    if |fields| == 0 then default
    else if fields[0].0 == key then fields[0].1
    else Get(fields[1..], key, default)
  }

  /** The lookup finds the first member stored under the key, and the default only when there is none. */
  lemma {:induction false} GetFirst(fields: seq<(string, Json)>, key: string, default: Json)
    ensures Stored(fields, key, default, Get(fields, key, default))
    ensures (exists i :: 0 <= i < |fields| && fields[i].0 == key) ==>
      exists i :: FirstWithKey(fields, key, i) && fields[i].1 == Get(fields, key, default)
  {
    if |fields| > 0 {
      if fields[0].0 == key {
        assert FirstWithKey(fields, key, 0);
      } else {
        var v := Get(fields, key, default);
        GetFirst(fields[1..], key, default);
        forall i | FirstWithKey(fields, key, i) ensures v == fields[i].1 {
          assert FirstWithKey(fields[1..], key, i - 1);
        }
        if exists i :: 0 <= i < |fields| && fields[i].0 == key {
          var i :| 0 <= i < |fields| && fields[i].0 == key;
          assert fields[1..][i - 1].0 == key;
          var j :| FirstWithKey(fields[1..], key, j) && fields[1..][j].1 == v;
          assert FirstWithKey(fields, key, j + 1);
        }
      }
    }
  }

  /** `v` is what `d.get(key, default)` returns: the value of the first member under `key`, or `default` when there is none. */
  ghost predicate Stored(fields: seq<(string, Json)>, key: string, default: Json, v: Json) {
    && ((forall i :: 0 <= i < |fields| ==> fields[i].0 != key) ==> v == default)
    && (forall i :: FirstWithKey(fields, key, i) ==> v == fields[i].1)
  }

  /** fields[i] is the first member stored under `key`. */
  predicate FirstWithKey(fields: seq<(string, Json)>, key: string, i: int) {
    0 <= i < |fields| && fields[i].0 == key && forall j :: 0 <= j < i ==> fields[j].0 != key
  }

  /**
   * What `for x in v` iterates over: a list's items, a dict's keys, a
   * string's characters; any other value raises `TypeError` with the
   * message returned here.
   */
  function Elements(v: Json): (r: Result<seq<Json>, string>)
    ensures v.Arr? ==> r == Success(v.items)
    ensures r.Success? && !v.Arr? ==> forall k :: 0 <= k < |r.value| ==> r.value[k].Str?
    ensures r.Success? <==> (v.Arr? || v.Obj? || v.Str?)
    ensures v.Obj? ==> |r.value| == |v.fields|
    ensures v.Str? ==> |r.value| == |v.s|
  {
    match v
    case Arr(items) => Success(items)
    case Obj(fields) => Success(seq(|fields|, k requires 0 <= k < |fields| => Str(fields[k].0)))
    case Str(s) => Success(seq(|s|, k requires 0 <= k < |s| => Str([s[k]])))
    case Null => Failure("'NoneType' object is not iterable")
    case Bool(_) => Failure("'bool' object is not iterable")
    case Int(_) => Failure("'int' object is not iterable")
    case Float(_) => Failure("'float' object is not iterable")
  }
}
