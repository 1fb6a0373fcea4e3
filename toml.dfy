/**
 * The parsed TOML document the generator reads. A table is the sequence of
 * its entries in the table's own iteration order, which decides the order of
 * the emitted fields and enum variants.
 */
module Toml {
  import opened Wrappers
  import opened Numbers

  type Table = seq<(string, Value)>

  /**
   * A TOML value. A float is kept as the text that Rust's `{}` prints for it,
   * and a datetime as an opaque token: the generator never computes with either.
   */
  datatype Value =
    | Str(s: string)
    | Integer(i: i64)
    | Float(text: string)
    | Boolean(b: bool)
    | Datetime(text: string)
    | Array(items: seq<Value>)
    | TableOf(entries: Table)

  /** TOML tables never hold the same key twice. */
  predicate UniqueKeys(t: Table) {
    forall i, j :: 0 <= i < j < |t| ==> t[i].0 != t[j].0
  }

  /** The value stored under `key`. */
  function Lookup(t: Table, key: string): Option<Value>
    decreases |t|
  {
    if t == [] then None
    else if t[0].0 == key then Some(t[0].1)
    else Lookup(t[1..], key)
  }

  /** A key is found exactly when some entry has it, and then with that entry's value. */
  lemma {:induction false} LookupFinds(t: Table, key: string)
    ensures Lookup(t, key).Some? <==> exists i :: 0 <= i < |t| && t[i].0 == key
    ensures Lookup(t, key).Some? ==> exists i :: 0 <= i < |t| && t[i] == (key, Lookup(t, key).value)
    decreases |t|
  {
    if t != [] && t[0].0 != key {
      LookupFinds(t[1..], key);
      assert forall i :: 0 < i < |t| ==> t[1..][i - 1] == t[i];
    }
  }

  /** `Value::get`: a key of a table value; anything but a table has no keys. */
  function Get(v: Value, key: string): Option<Value> {
    if v.TableOf? then Lookup(v.entries, key) else None
  }

  function AsStr(v: Value): Option<string> {
    if v.Str? then Some(v.s) else None
  }

  function AsInteger(v: Value): Option<i64> {
    if v.Integer? then Some(v.i) else None
  }

  function AsFloat(v: Value): Option<string> {
    if v.Float? then Some(v.text) else None
  }

  function AsBool(v: Value): Option<bool> {
    if v.Boolean? then Some(v.b) else None
  }

  function AsTable(v: Value): Option<Table> {
    if v.TableOf? then Some(v.entries) else None
  }
}

/**
 * How the generator reads its schema: every lookup the Rust code unwraps
 * becomes an error result instead of a panic.
 */
module Schema {
  import opened Wrappers
  import opened Numbers
  import opened Toml

  /** Every way generation aborts. */
  datatype Error =
    | Missing(key: string)                     // indexing a key that is absent, or indexing a non-table
    | WrongType(key: string)                   // `as_str()`, `as_integer()`, ... of the wrong kind of value, unwrapped
    | OptionalWithDefault(field: string)       // a field both optional and defaulted
    | UnsupportedFixedArray(element: string)   // a `FixedSizeArray` of something other than `Float` or `Integer`
    | ArrayOfNonIndex(element: string)         // a table-valued `Array.of` whose `ty` is not `Index`
    | NotOptional(field: string, ty: string)   // `optional` on a type that does not support it
    | UnknownType(ty: string)                  // a `ty` outside the vocabulary
    | UnknownEncoding(encoding: string)        // an enum `of` other than `String` or `Integer`
    | UnknownKind(kind: string)                // a `kind` other than `Struct` or `Enum`
    | Unreadable(path: string)                 // the `include` file cannot be read

  type Outcome<T> = Result<T, Error>

  /** `table[key]`. */
  function TableIndex(t: Table, key: string): Outcome<Value> {
    match Lookup(t, key)
    case Some(v) => Ok(v)
    case None => Err(Missing(key))
  }

  /** `value[key]`. */
  function Index(v: Value, key: string): Outcome<Value> {
    match Get(v, key)
    case Some(x) => Ok(x)
    case None => Err(Missing(key))
  }

  /** `value[key].as_str().unwrap()`. */
  function StrAt(v: Value, key: string): Outcome<string> {
    var x :- Index(v, key);
    match AsStr(x)
    case Some(s) => Ok(s)
    case None => Err(WrongType(key))
  }

  /** `table[key].as_str().unwrap()`. */
  function TableStrAt(t: Table, key: string): Outcome<string> {
    StrAt(TableOf(t), key)
  }

  /** `value[key].as_integer().unwrap()`. */
  function IntAt(v: Value, key: string): Outcome<i64> {
    var x :- Index(v, key);
    match AsInteger(x)
    case Some(i) => Ok(i)
    case None => Err(WrongType(key))
  }

  /** `value.as_table().unwrap()`, for the value found under `key`. */
  function TableAt(v: Value, key: string): Outcome<Table> {
    var x :- Index(v, key);
    match AsTable(x)
    case Some(t) => Ok(t)
    case None => Err(WrongType(key))
  }

  /** `value.get(key).map(|v| v.as_bool().unwrap()).unwrap_or(false)`. */
  function FlagAt(v: Value, key: string): (r: Outcome<bool>)
    ensures Get(v, key).None? ==> r == Ok(false)
    ensures r.Err? <==> Get(v, key).Some? && !Get(v, key).value.Boolean?
  {
    match Get(v, key)
    case None => Ok(false)
    case Some(x) =>
      match AsBool(x)
      case Some(b) => Ok(b)
      case None => Err(WrongType(key))
  }
}
