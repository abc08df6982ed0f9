/** JSON values as Python's `json` module produces them, with the two equalities the system uses. */
module JsonValues {

  /** A float is a whole part and a code for its fractional part, where code 0 is "no fraction";
      minus zero and the non-finite floats stand apart. */
  datatype Json =
    | Null
    | Bool(b: bool)
    | Int(n: int)
    | Float(whole: int, fraction: nat)
    | NegativeZero
    | NonFinite
    | Str(s: string)
    | Arr(items: seq<Json>)
    | Obj(fields: map<string, Json>)

  type Fields = map<string, Json>

  /** No NaN or infinity anywhere inside. */
  predicate Finite(j: Json) {
    match j
    case NonFinite => false
    case Arr(items) => forall i | 0 <= i < |items| :: Finite(items[i])
    case Obj(fields) => forall k | k in fields :: Finite(fields[k])
    case _ => true
  }

  /** The representative of a value under Python's `==`, for which `True == 1 == 1.0` and `0 == -0.0`. */
  function Norm(j: Json): Json {
    match j
    case Bool(b) => Float(if b then 1 else 0, 0)
    case Int(n) => Float(n, 0)
    case NegativeZero => Float(0, 0)
    case Arr(items) => Arr(seq(|items|, i requires 0 <= i < |items| => Norm(items[i])))
    case Obj(fields) => Obj(map k | k in fields :: Norm(fields[k]))
    case _ => j
  }

  /** Python's `==` on finite JSON values. Canonical text tells `1` from `1.0`; this does not. */
  predicate PyEqual(a: Json, b: Json) {
    Norm(a) == Norm(b)
  }

  /** `isinstance(value, int)`, which also holds of booleans. */
  predicate IsInt(j: Json) {
    j.Int? || j.Bool?
  }

  /** `mapping.get(key)`: the value, or null when absent. */
  function Get(fields: Fields, key: string): Json {
    if key in fields then fields[key] else Null
  }

  predicate IsNumber(j: Json) {
    j.Bool? || j.Int? || j.Float? || j.NegativeZero?
  }

  function WholeOf(j: Json): int
    requires IsNumber(j)
  {
    match j
    case Bool(b) => if b then 1 else 0
    case Int(n) => n
    case Float(whole, _) => whole
    case NegativeZero => 0
  }

  function FractionOf(j: Json): nat
    requires IsNumber(j)
  {
    if j.Float? then j.fraction else 0
  }

  /** Equality as Python compares, side by side: numbers by value, whatever their kind; text and null when
      identical; lists item by item; dictionaries key by key; and values of different kinds never. */
  ghost predicate Alike(a: Json, b: Json) {
    match a
    case Null => b.Null?
    case Str(s) => b.Str? && b.s == s
    case NonFinite => b.NonFinite?
    case Arr(xs) => b.Arr? && |xs| == |b.items| && forall i | 0 <= i < |xs| :: Alike(xs[i], b.items[i])
    case Obj(x) => b.Obj? && x.Keys == b.fields.Keys && forall k | k in x :: Alike(x[k], b.fields[k])
    case _ => IsNumber(b) && WholeOf(a) == WholeOf(b) && FractionOf(a) == FractionOf(b)
  }

  lemma NumbersEqual(a: Json, b: Json)
    requires IsNumber(a)
    ensures PyEqual(a, b) <==> IsNumber(b) && WholeOf(a) == WholeOf(b) && FractionOf(a) == FractionOf(b)
  {
  }

  lemma ArraysEqual(xs: seq<Json>, ys: seq<Json>)
    ensures PyEqual(Arr(xs), Arr(ys)) <==> |xs| == |ys| && forall i | 0 <= i < |xs| :: PyEqual(xs[i], ys[i])
  {
    var nx, ny := Norm(Arr(xs)).items, Norm(Arr(ys)).items;
    assert |nx| == |xs| && |ny| == |ys|;
    if nx == ny {
      forall i | 0 <= i < |xs| ensures PyEqual(xs[i], ys[i]) {
        assert nx[i] == ny[i];
      }
    }
  }

  /** Comparing representatives is comparing side by side. */
  lemma {:induction false} PyEqualIsAlike(a: Json, b: Json)
    ensures PyEqual(a, b) <==> Alike(a, b)
  {
    if a.Arr? && b.Arr? {
      ArraysEqual(a.items, b.items);
      if |a.items| == |b.items| {
        forall i | 0 <= i < |a.items| ensures PyEqual(a.items[i], b.items[i]) <==> Alike(a.items[i], b.items[i]) {
          PyEqualIsAlike(a.items[i], b.items[i]);
        }
      }
    } else if a.Obj? && b.Obj? {
      ObjectsEqual(a.fields, b.fields);
      if a.fields.Keys == b.fields.Keys {
        forall k | k in a.fields ensures PyEqual(a.fields[k], b.fields[k]) <==> Alike(a.fields[k], b.fields[k]) {
          PyEqualIsAlike(a.fields[k], b.fields[k]);
        }
      }
    } else if IsNumber(a) {
      NumbersEqual(a, b);
    }
  }

  /** Dictionaries are equal when they have the same keys and equal values. */
  lemma ObjectsEqual(x: Fields, y: Fields)
    ensures PyEqual(Obj(x), Obj(y)) <==> x.Keys == y.Keys && forall k | k in x.Keys :: PyEqual(x[k], y[k])
  {
    var nx, ny := Norm(Obj(x)).fields, Norm(Obj(y)).fields;
    assert nx.Keys == x.Keys && ny.Keys == y.Keys;
    if nx == ny {
      forall k | k in x.Keys ensures PyEqual(x[k], y[k]) {
        assert nx[k] == ny[k];
      }
    } else if x.Keys == y.Keys {
      assert exists k :: k in x.Keys && nx[k] != ny[k];
    }
  }
}
