/**
 * The Python values that the pipeline scripts read back with `json.load` and
 * build into dictionaries, with the lookups, `len`, truthiness and hashing
 * they use, and the exceptions those raise.
 */
module PyData {
  import opened Wrappers

  /**
   * A Python value: JSON data (`None`, `bool`, numbers, `str`, `list`,
   * `dict` with string keys) or an `Enum` member, which is not JSON.
   * Python's `int` and `float` are both modelled as exact `real`s.
   */
  datatype Value =
    | Null
    | Bool(b: bool)
    | Num(n: real)
    | Str(s: string)
    | List(items: seq<Value>)
    | Dict(fields: map<string, Value>)
    | Member(enumName: string, enumValue: string)

  /** The exceptions the modelled code can raise. */
  datatype PyError =
    | KeyError(key: string)
    | TypeError
    | AttributeError
    | IndexError
    | ZeroDivisionError

  type Outcome<T> = Result<T, PyError>

  /** `v[key]` with a string key: only a `dict` can be subscripted by a string. */
  function Index(v: Value, key: string): (r: Outcome<Value>)
    ensures r.Success? <==> v.Dict? && key in v.fields
    ensures r.Success? ==> r.value == v.fields[key]
    ensures v.Dict? && key !in v.fields ==> r == Failure(KeyError(key))
  {
    if !v.Dict? then Failure(TypeError)
    else if key in v.fields then Success(v.fields[key])
    else Failure(KeyError(key))
  }

  /** `v.get(key, default)`: only a `dict` has `get`. */
  function Get(v: Value, key: string, default: Value): (r: Outcome<Value>)
    ensures r.Success? <==> v.Dict?
    ensures r.Success? ==> r.value == Lookup(v.fields, key, default)
  {
    if !v.Dict? then Failure(AttributeError) else Success(Lookup(v.fields, key, default))
  }

  /** `d.get(key, default)` on a value already known to be a dict. */
  function Lookup(d: map<string, Value>, key: string, default: Value): (r: Value)
    ensures key in d ==> r == d[key]
    ensures key !in d ==> r == default
  {
    if key in d then d[key] else default
  }

  /** `len(v)`: defined for `str`, `list` and `dict`. */
  function Len(v: Value): (r: Outcome<nat>)
    ensures r.Success? <==> v.Str? || v.List? || v.Dict?
  {
    match v
    case Str(s) => Success(|s|)
    case List(xs) => Success(|xs|)
    case Dict(m) => Success(|m|)
    case _ => Failure(TypeError)
  }

  /** `bool(v)`. */
  predicate Truthy(v: Value) {
    match v
    case Null => false
    case Bool(b) => b
    case Num(n) => n != 0.0
    case Str(s) => s != []
    case List(xs) => xs != []
    case Dict(m) => |m| != 0
    case Member(_, _) => true
  }

  /** For the sized values, truthiness is a non-zero length. */
  lemma TruthyIsNonEmpty(v: Value)
    requires Len(v).Success?
    ensures Truthy(v) <==> Len(v).value > 0
  {
    if v.Dict? && |v.fields| != 0 {
      var k :| k in v.fields;
    }
  }

  /** `v[:n]` for a `str` or a `list`. */
  function SliceTo(v: Value, n: nat): (r: Outcome<Value>)
    ensures r.Success? <==> v.Str? || v.List?
    ensures r.Success? && v.Str? ==> r.value.Str? && |r.value.s| <= n && |r.value.s| <= |v.s| && r.value.s == v.s[..|r.value.s|]
    ensures r.Success? && v.Str? && |v.s| <= n ==> r.value == v
  {
    match v
    case Str(s) => Success(Str(if |s| <= n then s else s[..n]))
    case List(xs) => Success(List(if |xs| <= n then xs else xs[..n]))
    case _ => Failure(TypeError)
  }

  /**
   * The key under which a `set` or a `Counter` files `v`: `True == 1 == 1.0`
   * and `False == 0`, so a `bool` shares the key of its number; lists and
   * dicts are unhashable.
   */
  function HashKey(v: Value): (r: Outcome<Value>)
    ensures r.Success? <==> !v.List? && !v.Dict?
    ensures r.Success? ==> !r.value.Bool? && (!v.Bool? ==> r.value == v)
  {
    match v
    case Bool(b) => Success(Num(if b then 1.0 else 0.0))
    case List(_) => Failure(TypeError)
    case Dict(_) => Failure(TypeError)
    case _ => Success(v)
  }

  /** The number `sum()` adds for `v`: numbers and booleans only. */
  function AsNumber(v: Value): (r: Outcome<real>)
    ensures r.Success? <==> v.Num? || v.Bool?
  {
    match v
    case Num(n) => Success(n)
    case Bool(b) => Success(if b then 1.0 else 0.0)
    case _ => Failure(TypeError)
  }

  /** `v` can be written by `json.dump`: no enum member anywhere inside. */
  predicate IsJson(v: Value) {
    match v
    case List(xs) => forall i :: 0 <= i < |xs| ==> IsJson(xs[i])
    case Dict(m) => forall k :: k in m ==> IsJson(m[k])
    case Member(_, _) => false
    case _ => true
  }

  /** Optional strings become `None` or a `str`. */
  function OptStr(o: Option<string>): (v: Value)
    ensures IsJson(v)
  {
    match o
    case None => Null
    case Some(s) => Str(s)
  }

  function StrList(xs: seq<string>): (v: Value)
    ensures IsJson(v) && v.List? && |v.items| == |xs|
  {
    List(seq(|xs|, i requires 0 <= i < |xs| => Str(xs[i])))
  }

  function OptStrList(o: Option<seq<string>>): (v: Value)
    ensures IsJson(v)
  {
    match o
    case None => Null
    case Some(xs) => StrList(xs)
  }

  function IntValue(i: int): Value {
    Num(i as real)
  }
}
