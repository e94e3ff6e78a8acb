/** Small result types shared by the modules. */
module Outcomes {

  datatype Option<+T> = None | Some(value: T)

  datatype Result<+T, +E> = Ok(value: T) | Err(error: E)
}

/** What several modules ask of sequences. */
module Sequences {

  predicate Distinct<T(==)>(s: seq<T>) {
    forall i, j :: 0 <= i < j < |s| ==> s[i] != s[j]
  }

  function Elements<T>(s: seq<T>): set<T> {
    set x | x in s
  }
}

/** Parsed JSON trees, with the numeric types that Python's parser keeps apart. */
module Json {

  /** An IEEE 754 double: the two zeros are different values that compare equal. */
  datatype Double = Finite(value: real) | NegativeZero | Infinity(negative: bool) | NaN

  datatype Json =
    | Null
    | Bool(b: bool)
    | Int(i: int)
    | Float(d: Double)
    | Str(s: string)
    | Arr(items: seq<Json>)
    | Obj(members: map<string, Json>)

  predicate DoubleEqual(a: Double, b: Double) {
    match (a, b)
    case (NaN, _) => false
    case (_, NaN) => false
    case (Infinity(m), Infinity(n)) => m == n
    case (Infinity(_), _) => false
    case (_, Infinity(_)) => false
    case (_, _) => DoubleValue(a) == DoubleValue(b)
  }

  function DoubleValue(d: Double): real {
    match d
    case Finite(v) => v
    case _ => 0.0
  }

  /** No NaN and no infinity anywhere in the tree. */
  predicate AllFinite(j: Json) {
    match j
    case Float(d) => d.Finite? || d.NegativeZero?
    case Arr(items) => forall i :: 0 <= i < |items| ==> AllFinite(items[i])
    case Obj(members) => forall k :: k in members ==> AllFinite(members[k])
    case _ => true
  }

  /** Equality of trees that does not identify a bool, an int and a float. */
  predicate JsonEqual(left: Json, right: Json) {
    match left
    case Obj(l) =>
      right.Obj? && l.Keys == right.members.Keys && forall k :: k in l ==> JsonEqual(l[k], right.members[k])
    case Arr(l) =>
      right.Arr? && |l| == |right.items| && forall i :: 0 <= i < |l| ==> JsonEqual(l[i], right.items[i])
    case Float(d) => right.Float? && DoubleEqual(d, right.d)
    case _ => left == right
  }

  lemma {:induction false} JsonEqualReflexive(j: Json)
    requires AllFinite(j)
    ensures JsonEqual(j, j)
  {
    match j
    case Arr(items) =>
      forall i | 0 <= i < |items| ensures JsonEqual(items[i], items[i]) {
        JsonEqualReflexive(items[i]);
      }
    case Obj(members) =>
      forall k | k in members ensures JsonEqual(members[k], members[k]) {
        JsonEqualReflexive(members[k]);
      }
    case _ =>
  }

  lemma {:induction false} JsonEqualSymmetric(a: Json, b: Json)
    ensures JsonEqual(a, b) ==> JsonEqual(b, a)
  {
    if JsonEqual(a, b) {
      match (a, b)
      case (Arr(l), Arr(r)) =>
        forall i | 0 <= i < |r| ensures JsonEqual(r[i], l[i]) {
          JsonEqualSymmetric(l[i], r[i]);
        }
      case (Obj(l), Obj(r)) =>
        forall k | k in r ensures JsonEqual(r[k], l[k]) {
          JsonEqualSymmetric(l[k], r[k]);
        }
      case (_, _) =>
    }
  }

  lemma {:induction false} JsonEqualTransitive(a: Json, b: Json, c: Json)
    requires JsonEqual(a, b) && JsonEqual(b, c)
    ensures JsonEqual(a, c)
  {
    match a
    case Arr(items) =>
      forall i | 0 <= i < |items| ensures JsonEqual(items[i], c.items[i]) {
        JsonEqualTransitive(items[i], b.items[i], c.items[i]);
      }
    case Obj(members) =>
      forall k | k in members ensures JsonEqual(members[k], c.members[k]) {
        JsonEqualTransitive(members[k], b.members[k], c.members[k]);
      }
    case _ =>
  }

  /** The tree with every negative zero replaced by the positive one. */
  function Unsigned(j: Json): Json {
    match j
    case Float(NegativeZero) => Float(Finite(0.0))
    case Arr(items) => Arr(seq(|items|, i requires 0 <= i < |items| => Unsigned(items[i])))
    case Obj(members) => Obj(map k | k in members :: Unsigned(members[k]))
    case _ => j
  }

  /** Apart from the sign of zeros, equal documents are the same document. */
  lemma {:induction false} JsonEqualExactly(a: Json, b: Json)
    requires AllFinite(a) && AllFinite(b)
    ensures JsonEqual(a, b) <==> Unsigned(a) == Unsigned(b)
  {
    match (a, b)
    case (Arr(l), Arr(r)) =>
      var x, y := Unsigned(a).items, Unsigned(b).items;
      forall i | 0 <= i < |l| && |l| == |r| ensures JsonEqual(l[i], r[i]) <==> x[i] == y[i] {
        JsonEqualExactly(l[i], r[i]);
      }
      assert x == y <==> |l| == |r| && forall i :: 0 <= i < |l| ==> x[i] == y[i];
    case (Obj(l), Obj(r)) =>
      var x, y := Unsigned(a).members, Unsigned(b).members;
      assert x.Keys == l.Keys && y.Keys == r.Keys;
      forall k | k in l && k in r ensures JsonEqual(l[k], r[k]) <==> x[k] == y[k] {
        JsonEqualExactly(l[k], r[k]);
      }
      assert x == y <==> l.Keys == r.Keys && forall k :: k in l && k in r ==> x[k] == y[k];
    case (_, _) =>
  }
}
