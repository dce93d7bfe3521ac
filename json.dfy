/**
 * JSON values as the Python scripts see them after `json.load`, with Python's
 * truthiness made explicit. A record (a publication, or the metadata resolved
 * for one) is a dictionary from keys to values.
 */
module Json {
  import opened Wrappers
  import Text

  datatype Value =
    | Null
    | Bool(b: bool)
    | Int(i: int)
    | Str(s: string)
    | List(items: seq<Value>)
    | Obj(fields: map<string, Value>)

  type Record = map<string, Value>

  /** Python's `bool(v)`: None, False, 0, "" and empty containers are false. */
  predicate Truthy(v: Value) {
    match v
    case Null => false
    case Bool(b) => b
    case Int(i) => i != 0
    case Str(s) => s != ""
    case List(items) => items != []
    case Obj(fields) => fields != map[]
  }

  /** `d.get(key)`: None when the key is absent. */
  function Get(d: Record, key: string): Value {
    if key in d then d[key] else Null
  }

  /** `d.get(key, default)`. */
  function GetOr(d: Record, key: string, default: Value): Value {
    if key in d then d[key] else default
  }

  /** `d.get(key)` without collapsing an absent key into a stored None. */
  function Lookup(d: Record, key: string): Option<Value> {
    if key in d then Some(d[key]) else None
  }

  /** Two records that agree on every lookup are equal. */
  lemma SameLookups(a: Record, b: Record)
    requires forall k :: Lookup(a, k) == Lookup(b, k)
    ensures a == b
  {
    assert forall k :: k in a <==> k in b by {
      forall k ensures k in a <==> k in b { assert Lookup(a, k).Some? == Lookup(b, k).Some?; }
    }
    forall k | k in a ensures a[k] == b[k] { assert Lookup(a, k) == Lookup(b, k); }
  }

  /**
   * `str(v)` for the scalar values the scripts format. Containers are rendered
   * as "[...]" and "{...}", not as Python's repr.
   */
  function Show(v: Value): string {
    match v
    case Null => "None"
    case Bool(b) => if b then "True" else "False"
    case Int(i) => Text.IntToString(i)
    case Str(s) => s
    case List(_) => "[...]"
    case Obj(_) => "{...}"
  }
}
