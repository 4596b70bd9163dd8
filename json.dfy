/** JSON-like values as the rule engine sees them after decoding: a tagged
    variant in place of Python's dynamic typing. An object is kept as the
    ordered list of its entries, so that document order is preserved. */
module Json {
  import opened Basics

  datatype Value =
    | Null
    | Bool(b: bool)
    | Int(i: int)
    | Str(s: string)
    | Obj(fields: seq<(string, Value)>)
    | Arr(items: seq<Value>)

  /** `d.get(k)` on a decoded object: a missing key and an explicit `null`
      both read as `Null`. */
  function Get(fields: seq<(string, Value)>, k: string): (r: Value)
    ensures !HasKey(fields, k) ==> r == Null
  {
    match Lookup(fields, k)
    case Some(v) => v
    case None => Null
  }

  /** Python truthiness: `None`, `False`, `0`, `""`, `{}` and `[]` are false. */
  predicate Truthy(v: Value)
  {
    match v
    case Null => false
    case Bool(b) => b
    case Int(i) => i != 0
    case Str(s) => s != ""
    case Obj(fields) => fields != []
    case Arr(items) => items != []
  }

  /** The number a boolean or integer stands for in Python arithmetic. */
  function Numeric(v: Value): int
    requires v.Bool? || v.Int?
  {
    if v.Bool? then (if v.b then 1 else 0) else v.i
  }

  /** Python `==` on decoded values: `True == 1` and `False == 0`, dicts are
      equal when they have the same keys with equal values whatever the order,
      lists when they are equal position by position. */
  predicate PyEq(a: Value, b: Value)
  {
    match a
    case Null => b.Null?
    case Bool(_) => (b.Bool? || b.Int?) && Numeric(a) == Numeric(b)
    case Int(_) => (b.Bool? || b.Int?) && Numeric(a) == Numeric(b)
    case Str(s) => b == Str(s)
    case Arr(xs) =>
      && b.Arr?
      && |xs| == |b.items|
      && forall i :: 0 <= i < |xs| ==> PyEq(xs[i], b.items[i])
    case Obj(fs) =>
      && b.Obj?
      && (forall i :: 0 <= i < |fs| ==> HasKey(b.fields, fs[i].0) && PyEq(fs[i].1, Get(b.fields, fs[i].0)))
      && (forall j :: 0 <= j < |b.fields| ==> HasKey(fs, b.fields[j].0))
  }
}
