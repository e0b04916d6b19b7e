/** A dynamically typed Python value, for the code that inspects what it is
    given (`isinstance`, truth tests, `getattr` with a default). */
module PyValues {
  import opened Wrappers
  import opened PyStr

  /** `PyDict` keeps its entries in insertion order; `PyObject` is an object
      whose attributes are listed by name (an SDK result, a test stub). */
  datatype PyValue =
    | PyNone
    | PyBool(b: bool)
    | PyInt(i: int)
    | PyStr(s: string)
    | PyList(items: seq<PyValue>)
    | PyDict(entries: seq<(PyValue, PyValue)>)
    | PyObject(attrs: seq<(string, PyValue)>)

  /** Python's truth test: `None`, `False`, `0` and empty containers are false;
      plain objects are true. */
  predicate Truthy(v: PyValue) {
    match v
    case PyNone => false
    case PyBool(b) => b
    case PyInt(i) => i != 0
    case PyStr(s) => s != []
    case PyList(items) => items != []
    case PyDict(entries) => entries != []
    case PyObject(_) => true
  }

  /** Lists and dicts cannot be looked up in a set (`TypeError: unhashable type`). */
  predicate Hashable(v: PyValue) {
    !v.PyList? && !v.PyDict?
  }

  /** The value stored under `key`, if any (the first entry with that key). */
  function Lookup<K(==), V>(entries: seq<(K, V)>, key: K): (r: Option<V>)
    ensures r.None? <==> forall i :: 0 <= i < |entries| ==> entries[i].0 != key
  {
    if entries == [] then None
    else if entries[0].0 == key then Some(entries[0].1)
    else Lookup(entries[1..], key)
  }

  /** Each entry that comes before the first one with `key` has another key. */
  lemma {:induction false} LookupFirst<K, V>(entries: seq<(K, V)>, key: K, i: nat)
    requires i < |entries| && entries[i].0 == key
    requires forall j :: 0 <= j < i ==> entries[j].0 != key
    ensures Lookup(entries, key) == Some(entries[i].1)
  {
    if i > 0 {
      LookupFirst(entries[1..], key, i - 1);
    }
  }

  /** `d.get(key)` on a dict's entries: `None` when the key is missing. */
  function DictGet(entries: seq<(PyValue, PyValue)>, key: PyValue): PyValue {
    Lookup(entries, key).GetOr(PyNone)
  }

  /** The attribute `name` of `v`; `None` when `v` has no such attribute. */
  function GetAttr(v: PyValue, name: string): Option<PyValue> {
    if v.PyObject? then Lookup(v.attrs, name) else None
  }

  /** `getattr(v, name, None)`. */
  function GetAttrOr(v: PyValue, name: string): PyValue {
    GetAttr(v, name).GetOr(PyNone)
  }

  /** `str(v)`; containers and objects (timestamps, SDK results) render
      through their own `__str__`, given here as `objStr`. */
  function Str(v: PyValue, objStr: PyValue -> string): string {
    match v
    case PyNone => "None"
    case PyBool(b) => if b then "True" else "False"
    case PyInt(i) => IntToString(i)
    case PyStr(s) => s
    case _ => objStr(v)
  }
}
