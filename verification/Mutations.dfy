/** Mutations of column values (updates/mutate.go). */
module Mutations {
  import opened Values
  import opened Difference

  datatype Mutator = Insert | Delete | Add | Subtract | Multiply | Divide | Modulo

  /** A mutation with its value in native form.  Deleting from a map also accepts a set of
      keys. */
  datatype Mutation = Mutation(column: Column, mutator: Mutator, value: Value)

  // ---- slices ----

  /** `insertToSlice`: append `b` unless it is already there. */
  method InsertToSlice<T(==)>(a: seq<T>, b: T) returns (r: seq<T>, inserted: bool)
    ensures inserted <==> b !in a
    ensures r == if b in a then a else a + [b]
  {
    for i := 0 to |a|
      invariant b !in a[..i]
    {
      if a[i] == b {
        return a, false;
      }
      assert a[..i + 1] == a[..i] + [a[i]];
    }
    assert a[..|a|] == a;
    return a + [b], true;
  }

  /** `removeFromSlice`: cut out the first occurrence of `b`. */
  method RemoveFromSlice<T(==)>(a: seq<T>, b: T) returns (r: seq<T>, removed: bool)
    requires NoDup(a)
    ensures removed <==> b in a
    ensures NoDup(r) && ToSet(r) == ToSet(a) - {b}
  {
    for i := 0 to |a|
      invariant b !in a[..i]
    {
      if a[i] == b {
        r := a[..i] + a[i + 1..];
        assert forall x :: x in a && x != b ==> x in r by {
          forall x | x in a && x != b
            ensures x in r
          {
            var k :| 0 <= k < |a| && a[k] == x;
            assert x == if k < i then r[k] else r[k - 1];
          }
        }
        return r, true;
      }
      assert a[..i + 1] == a[..i] + [a[i]];
    }
    assert a[..|a|] == a;
    return a, false;
  }

  /** Insert mutation of a slice: the new slice and the values that were really added. */
  method InsertSlice<T(==)>(current: seq<T>, value: seq<T>) returns (v: seq<T>, diff: seq<T>)
    requires NoDup(current)
    ensures NoDup(v) && ToSet(v) == ToSet(current) + ToSet(value)
    ensures NoDup(diff) && ToSet(diff) == ToSet(value) - ToSet(current)
  {
    v, diff := current, [];
    for i := 0 to |value|
      invariant NoDup(v) && ToSet(v) == ToSet(current) + ToSet(value[..i])
      invariant NoDup(diff) && ToSet(diff) == ToSet(value[..i]) - ToSet(current)
    {
      assert value[..i + 1] == value[..i] + [value[i]];
      ToSetAppend(value[..i], value[i]);
      ToSetAppend(v, value[i]);
      ToSetAppend(diff, value[i]);
      assert value[i] in v <==> value[i] in ToSet(v);
      var ok;
      v, ok := InsertToSlice(v, value[i]);
      if ok {
        assert value[i] !in diff by {
          assert value[i] !in ToSet(diff);
        }
        diff := diff + [value[i]];
      }
    }
    assert value[..|value|] == value;
  }

  /** Delete mutation of a slice: the new slice and the values that were really removed. */
  method DeleteSlice<T(==)>(current: seq<T>, value: seq<T>) returns (v: seq<T>, diff: seq<T>)
    requires NoDup(current)
    ensures NoDup(v) && ToSet(v) == ToSet(current) - ToSet(value)
    ensures NoDup(diff) && ToSet(diff) == ToSet(current) * ToSet(value)
  {
    v, diff := current, [];
    for i := 0 to |value|
      invariant NoDup(v) && ToSet(v) == ToSet(current) - ToSet(value[..i])
      invariant NoDup(diff) && ToSet(diff) == ToSet(current) * ToSet(value[..i])
    {
      assert value[..i + 1] == value[..i] + [value[i]];
      ToSetAppend(value[..i], value[i]);
      ToSetAppend(diff, value[i]);
      assert value[i] in v <==> value[i] in ToSet(v);
      assert value[i] in diff <==> value[i] in ToSet(diff);
      var ok;
      v, ok := RemoveFromSlice(v, value[i]);
      if ok {
        diff := diff + [value[i]];
      }
    }
    assert value[..|value|] == value;
  }

  // ---- maps ----

  function InsertedPairs<K, V>(current: map<K, V>, value: map<K, V>): map<K, V> {
    map k | k in value && k !in current :: value[k]
  }

  function DeletedPairs<K, V(==)>(current: map<K, V>, value: map<K, V>): map<K, V> {
    map k | k in value && k in current && current[k] == value[k] :: current[k]
  }

  function DeletedKeys<K, V>(current: map<K, V>, keys: set<K>): map<K, V> {
    map k | k in current && k in keys :: current[k]
  }

  /** Insert mutation of a map: only keys that are absent are written. */
  method InsertMap<K(==), V(==)>(current: map<K, V>, value: map<K, V>) returns (v: map<K, V>, diff: map<K, V>)
    ensures diff == InsertedPairs(current, value)
    ensures v == MapApply(current, diff)
  {
    v, diff := current, map[];
    var todo := value.Keys;
    while todo != {}
      invariant todo <= value.Keys
      invariant diff == map k | k in value && k !in todo && k !in current :: value[k]
      invariant v == MapApply(current, diff)
      decreases todo
    {
      var k :| k in todo;
      todo := todo - {k};
      if k !in v {
        v := v[k := value[k]];
        diff := diff[k := value[k]];
      }
    }
  }

  /** Delete mutation of a map by key-value pairs. */
  method DeleteMap<K(==), V(==)>(current: map<K, V>, value: map<K, V>) returns (v: map<K, V>, diff: map<K, V>)
    ensures diff == DeletedPairs(current, value)
    ensures v == MapApply(current, diff)
  {
    v, diff := current, map[];
    var todo := value.Keys;
    while todo != {}
      invariant todo <= value.Keys
      invariant diff == map k | k in value && k !in todo && k in current && current[k] == value[k] :: current[k]
      invariant v == MapApply(current, diff)
      decreases todo
    {
      var k :| k in todo;
      todo := todo - {k};
      if k in v && v[k] == value[k] {
        diff := diff[k := v[k]];
        v := v - {k};
      }
    }
  }

  /** Delete mutation of a map by keys. */
  method DeleteMapKeys<K(==), V(==)>(current: map<K, V>, keys: seq<K>) returns (v: map<K, V>, diff: map<K, V>)
    ensures diff == DeletedKeys(current, ToSet(keys))
    ensures v == MapApply(current, diff)
  {
    v, diff := current, map[];
    for i := 0 to |keys|
      invariant diff == DeletedKeys(current, ToSet(keys[..i]))
      invariant v == MapApply(current, diff)
    {
      var k := keys[i];
      assert keys[..i + 1] == keys[..i] + [k];
      if k in v {
        diff := diff[k := v[k]];
        v := v - {k};
      }
    }
    assert keys[..|keys|] == keys;
  }

  // ---- numbers ----

  const TWO_63 := 0x8000_0000_0000_0000
  const TWO_64 := 0x1_0000_0000_0000_0000

  /** Wrap-around of a 64-bit signed integer. */
  function Wrap64(i: int): (r: int)
    ensures -TWO_63 <= r < TWO_63
    ensures (r - i) % TWO_64 == 0
  {
    (i + TWO_63) % TWO_64 - TWO_63
  }

  /** Division that truncates toward zero. */
  function TruncDiv(a: int, b: int): (q: int)
    requires b != 0
    ensures var r := a - q * b; (r == 0 || (r < 0 <==> a < 0)) && (if r < 0 then -r else r) < (if b < 0 then -b else b)
  {
    if a >= 0 then
      if b > 0 then a / b else -(a / -b)
    else
      if b > 0 then -(-a / b) else -a / -b
  }

  predicate DividesByZero(m: Mutator, b: Atom) {
    (m == Divide || m == Modulo) && (b == IntAtom(0) || b == RealAtom(0.0))
  }

  predicate Arithmetic(m: Mutator, t: AtomType) {
    || (t == IntType && m in {Add, Subtract, Multiply, Divide, Modulo})
    || (t == RealType && m in {Add, Subtract, Multiply, Divide})
  }

  function Compute(m: Mutator, a: Atom, b: Atom): Atom
    requires !DividesByZero(m, b)
  {
    match (a, b)
    case (IntAtom(x), IntAtom(y)) => (
      match m
      case Add => IntAtom(Wrap64(x + y))
      case Subtract => IntAtom(Wrap64(x - y))
      case Multiply => IntAtom(Wrap64(x * y))
      case Divide => IntAtom(Wrap64(TruncDiv(x, y)))
      case Modulo => IntAtom(Wrap64(x - TruncDiv(x, y) * y))
      case _ => a)
    case (RealAtom(x), RealAtom(y)) => (
      match m
      case Add => RealAtom(x + y)
      case Subtract => RealAtom(x - y)
      case Multiply => RealAtom(x * y)
      case Divide => RealAtom(x / y)
      case _ => a)
    case _ => a
  }

  // ---- values ----

  /** `ValidateMutation`: which mutators a column accepts, and with which values.  Optional
      columns, enums, strings, booleans and UUIDs accept none. */
  predicate ValidMutation(cs: ColumnSchema, m: Mutator, value: Value) {
    cs.mutable &&
    match cs.kind
    case AtomKind(t) => !cs.enum && Arithmetic(m, t) && HasKind(value, cs.kind)
    case OptKind(_) => false
    case SetKind(_, _) => m in {Insert, Delete} && HasKind(value, cs.kind)
    case MapKind(k, _) =>
      || (m in {Insert, Delete} && HasKind(value, cs.kind))
      || (m == Delete && HasKind(value, SetKind(k, 0)))
  }

  function SomeSet(s: set<Atom>): Option<Value> {
    if s == {} then None else Some(SetValue(s))
  }

  function SomeMap(m: map<Atom, Atom>): Option<Value> {
    if m == map[] then None else Some(MapValue(m))
  }

  /** `mutate`: the new value and the difference it makes, None standing for nil. */
  function Mutate(current: Value, m: Mutator, value: Value): (Value, Option<Value>)
    requires value.AtomValue? ==> !DividesByZero(m, value.a)
  {
    match (current, value)
    case (AtomValue(a), AtomValue(b)) =>
      var v := AtomValue(Compute(m, a, b));
      (v, Some(v))
    case (SetValue(s), SetValue(t)) =>
      if m == Insert then (SetValue(s + t), SomeSet(t - s))
      else if m == Delete then (SetValue(s - t), SomeSet(s * t))
      else (current, None)
    case (MapValue(x), MapValue(y)) =>
      var d := if m == Insert then InsertedPairs(x, y) else if m == Delete then DeletedPairs(x, y) else map[];
      (MapValue(MapApply(x, d)), SomeMap(d))
    case (MapValue(x), SetValue(t)) =>
      var d := if m == Delete then DeletedKeys(x, t) else map[];
      (MapValue(MapApply(x, d)), SomeMap(d))
    case _ => (current, None)
  }

  /** The difference reported by a mutation is the change it makes, and a mutated value keeps
      its column's kind. */
  lemma MutateDifference(cs: ColumnSchema, current: Value, m: Mutator, value: Value)
    requires HasKind(current, cs.kind) && ValidMutation(cs, m, value)
    requires value.AtomValue? ==> !DividesByZero(m, value.a)
    ensures var (v, d) := Mutate(current, m, value);
            && HasKind(v, cs.kind)
            && (d.None? ==> v == current)
            && (d.Some? ==> SameKind(current, d.value) && Apply(current, d.value) == v)
            && (current.AtomValue? ==> d.Some?)
            && (d.Some? && !current.AtomValue? ==> v != current)
  {
    var (v, d) := Mutate(current, m, value);
    match (current, value)
    case (SetValue(s), SetValue(t)) =>
      assert SymDiff(s, t - s) == s + t;
      assert SymDiff(s, s * t) == s - t;
      SymDiffLaws(s, if m == Insert then t - s else s * t, t);
    case (MapValue(x), MapValue(y)) =>
      MapApplyLaws(x, if m == Insert then InsertedPairs(x, y) else DeletedPairs(x, y));
    case (MapValue(x), SetValue(t)) =>
      MapApplyLaws(x, DeletedKeys(x, t));
    case _ =>
  }
}
