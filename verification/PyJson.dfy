/** Decoded JSON values and Python's equality on them. */
module PyJson {

  datatype Json =
    | Null
    | Bool(flag: bool)
    | Int(number: int)
    | Float(amount: real)
    | Str(text: string)
    | List(items: seq<Json>)
    | Obj(fields: map<string, Json>)

  /** `payload.get(key)` */
  function Get(fields: map<string, Json>, key: string): Json {
    if key in fields then fields[key] else Null
  }

  /** The fields say exactly this under the key. */
  predicate Has(fields: map<string, Json>, key: string, value: Json) {
    key in fields && fields[key] == value
  }

  /** A JSON list of strings. */
  function TextList(xs: seq<string>): (r: seq<Json>)
    ensures |r| == |xs| && forall i | 0 <= i < |xs| :: r[i] == Str(xs[i])
  {
    seq(|xs|, i requires 0 <= i < |xs| => Str(xs[i]))
  }

  predicate IsNumber(j: Json) {
    j.Bool? || j.Int? || j.Float?
  }

  /** The number a boolean, integer or float compares as. */
  function Number(j: Json): real
    requires IsNumber(j)
  {
    match j
    case Bool(b) => if b then 1.0 else 0.0
    case Int(n) => n as real
    case Float(x) => x
  }

  /** `a == b`: numbers compare by value across types, so `1 == True` and `0 == 0.0`. */
  predicate PyEq(a: Json, b: Json) {
    if IsNumber(a) && IsNumber(b) then Number(a) == Number(b)
    else
      match a
      case List(xs) => b.List? && |xs| == |b.items| && forall i | 0 <= i < |xs| :: PyEq(xs[i], b.items[i])
      case Obj(m) => b.Obj? && m.Keys == b.fields.Keys && forall k | k in m :: PyEq(m[k], b.fields[k])
      case _ => a == b
  }

  lemma PyEqReflexive(a: Json)
    ensures PyEq(a, a)
  {
  }

  /** `type(a) is type(b)` */
  predicate SameType(a: Json, b: Json) {
    || (a.Null? && b.Null?) || (a.Bool? && b.Bool?) || (a.Int? && b.Int?) || (a.Float? && b.Float?)
    || (a.Str? && b.Str?) || (a.List? && b.List?) || (a.Obj? && b.Obj?)
  }

  /** On scalars of one type, Python's equality is identity of values. */
  lemma PyEqSameScalar(a: Json, b: Json)
    requires SameType(a, b) && !a.List? && !a.Obj?
    ensures PyEq(a, b) <==> a == b
  {
  }

  /** No float occurs at any depth. */
  predicate FloatFree(j: Json) {
    match j
    case Float(_) => false
    case List(items) => forall i | 0 <= i < |items| :: FloatFree(items[i])
    case Obj(f) => forall k | k in f :: FloatFree(f[k])
    case _ => true
  }
}
