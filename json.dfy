/**
 * The persistence adapter of assets/js/app.js: values as JSON.parse yields
 * them, and the two helpers `jsonGet` and `jsonSet` over a host string store.
 */
module Json {
  import opened Wrappers

  /** A value as JSON.parse produces it. */
  datatype Value =
    | Null
    | Bool(b: bool)
    | Num(n: real)
    | Str(s: string)
    | Arr(items: seq<Value>)
    | Obj(fields: map<string, Value>)

  /** A plain object: what `Object.assign` merges and the stores hold per user or trade. */
  type Record = map<string, Value>

  /** JavaScript truthiness (`if (v)`, `!v`, `v || w`) of a parsed value. */
  predicate Truthy(v: Value) {
    match v
    case Null => false
    case Bool(b) => b
    case Num(n) => n != 0.0
    case Str(s) => s != ""
    case _ => true
  }

  /**
   * `a === b` where the two sides were parsed separately: primitives compare by
   * value, while two arrays or objects are always distinct references.
   */
  predicate StrictEquals(a: Value, b: Value) {
    !a.Arr? && !a.Obj? && a == b
  }

  /** The property `key` of a record, `None` when it is undefined. */
  function Lookup(r: Record, key: string): (p: Option<Value>)
    ensures p.Some? <==> key in r
    ensures p.Some? ==> p.value == r[key]
  {
    if key in r then Some(r[key]) else None
  }

  /**
   * What a host string store (localStorage or sessionStorage) holds under one key,
   * seen through JSON.parse: a parsable text, or text that is empty or that
   * JSON.parse rejects.
   */
  datatype Stored = Encoded(value: Value) | Unreadable

  type Storage = map<string, Stored>

  /** `jsonGet(key, fallback)`: the parsed value, or the fallback when there is none. */
  function Read(store: Storage, key: string, fallback: Value): (v: Value)
    ensures v == fallback || (key in store && store[key] == Encoded(v))
    ensures key in store && store[key].Encoded? ==> v == store[key].value
  {
    if key in store && store[key].Encoded? then store[key].value else fallback
  }

  /** `jsonSet(key, v)`: the whole value under `key` is replaced, every other key kept. */
  function Write(store: Storage, key: string, v: Value): (store': Storage)
    ensures store'.Keys == store.Keys + {key}
    ensures store'[key] == Encoded(v)
    ensures forall k :: k in store && k != key ==> store'[k] == store[k]
  {
    store[key := Encoded(v)]
  }

  /** JSON.stringify followed by JSON.parse gives the value back, `null` included. */
  lemma ReadAfterWrite(store: Storage, key: string, v: Value, fallback: Value)
    ensures Read(Write(store, key, v), key, fallback) == v
  {
  }

  /** Writing one key leaves what every other key reads unchanged. */
  lemma ReadOtherAfterWrite(store: Storage, key: string, other: string, v: Value, fallback: Value)
    requires other != key
    ensures Read(Write(store, key, v), other, fallback) == Read(store, other, fallback)
  {
  }
}
