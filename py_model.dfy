/** The slice of Python's value model that the person resource relies on:
    JSON-like values, truthiness, `dict.get`, `iter()`, and dictionaries
    that are changed in place. */
module PyModel {
  import opened Outcomes

  /** A department row; only its id is read by the resource. */
  datatype Department = Department(id: string)

  /** A value stored in a request or serialization dictionary.
      `Null` is Python's None. */
  datatype Value =
    | Null
    | Bool(b: bool)
    | Int(i: int)
    | Str(s: string)
    | List(items: seq<Value>)
    | DepartmentRef(department: Department)

  /** Python truthiness: None, False, 0, "" and [] are false, everything else true. */
  predicate Truthy(v: Value) {
    match v
    case Null => false
    case Bool(b) => b
    case Int(i) => i != 0
    case Str(s) => s != ""
    case List(items) => items != []
    case DepartmentRef(_) => true
  }

  /** `d.get(key, default)` */
  function Get(d: map<string, Value>, key: string, default: Value): Value {
    if key in d then d[key] else default
  }

  /** The elements a Python `for` loop visits: a list's items, a string's
      one-character strings; any other value raises TypeError. */
  function Iterate(v: Value): (r: Result<seq<Value>>)
    ensures r.Ok? <==> v.List? || v.Str?
    ensures v.List? ==> r == Ok(v.items)
    ensures v.Str? ==> r.Ok? && |r.value| == |v.s|
                       && forall i :: 0 <= i < |v.s| ==> r.value[i] == Str([v.s[i]])
    ensures r.Err? ==> r.error == TypeError
  {
    match v
    case List(items) => Ok(items)
    case Str(s) => Ok(seq(|s|, i requires 0 <= i < |s| => Str([s[i]])))
    case _ => Err(TypeError)
  }

  /** A Python dict that the resource mutates in place. */
  class Dict {
    var entries: map<string, Value>

    constructor (entries: map<string, Value>)
      ensures this.entries == entries
    {
      this.entries := entries;
    }

    /** `d.pop(key, None)` */
    method Pop(key: string) returns (v: Value)
      modifies this
      ensures entries == old(entries) - {key}
      ensures v == Get(old(entries), key, Null)
    {
      v := Get(entries, key, Null);
      entries := entries - {key};
    }

    /** `d[key] = v` */
    method Put(key: string, v: Value)
      modifies this
      ensures entries == old(entries)[key := v]
    {
      entries := entries[key := v];
    }
  }
}
