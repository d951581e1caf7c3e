/** Differences between column values, as computed, applied and composed by
    updates/difference.go.  One algorithm serves as "difference", "apply" and, given the
    original value, "compose". */
module Difference {
  import opened Values

  // ---- sets ----

  function ToSet<T>(s: seq<T>): set<T> {
    set x | x in s
  }

  lemma ToSetAppend<T>(s: seq<T>, x: T)
    ensures ToSet(s + [x]) == ToSet(s) + {x}
  {
  }

  predicate NoDup<T(==)>(s: seq<T>) {
    forall i, j :: 0 <= i < j < |s| ==> s[i] != s[j]
  }

  function SymDiff<T>(a: set<T>, b: set<T>): set<T> {
    (a - b) + (b - a)
  }

  /** The in-place set difference: a value of `a` that is in `b` is overwritten by the last
      value still held, and what is left of `b` is appended. */
  method SetDifference<T(==)>(a: array<T>, b: seq<T>) returns (r: seq<T>, changed: bool)
    requires NoDup(a[..]) && NoDup(b)
    modifies a
    ensures NoDup(r)
    ensures ToSet(r) == SymDiff(ToSet(old(a[..])), ToSet(b))
    ensures changed <==> ToSet(old(a[..])) != ToSet(b)
  {
    ghost var as0, bs := ToSet(a[..]), ToSet(b);
    if a.Length == 0 {
      r, changed := b, |b| != 0;
      assert |b| != 0 ==> b[0] in bs;
      return;
    }
    if |b| == 0 {
      r, changed := a[..], true;
      assert a[0] in as0;
      return;
    }
    var difference := BuildSet(b);
    var i, j := 0, a.Length;
    assert a[..j] == a[..];
    while i < j
      invariant 0 <= i <= j <= a.Length
      invariant NoDup(a[..j])
      invariant ToSet(a[..j]) <= as0
      invariant as0 - ToSet(a[..j]) <= bs
      invariant forall k :: 0 <= k < i ==> a[k] !in bs
      invariant difference == bs - (as0 - ToSet(a[..j]))
      decreases j - i
    {
      var v := a[i];
      assert v in a[..j];
      if v in difference {
        ghost var before := a[..j];
        a[i] := a[j - 1];
        SwapWithLast(before, i);
        assert a[..j - 1] == before[i := before[j - 1]][..j - 1];
        j := j - 1;
        difference := difference - {v};
      } else {
        i := i + 1;
      }
    }
    r := a[..j];
    assert ToSet(r) == as0 - bs by {
      assert forall x :: x in ToSet(r) ==> x !in bs;
    }
    assert difference == bs - as0;
    ghost var total := ToSet(r) + difference;
    while difference != {}
      invariant NoDup(r)
      invariant ToSet(r) !! difference
      invariant ToSet(r) + difference == total
      decreases difference
    {
      var item :| item in difference;
      assert item !in ToSet(r);
      assert ToSet(r + [item]) == ToSet(r) + {item};
      r := r + [item];
      difference := difference - {item};
    }
    changed := |r| != 0;
    assert total == SymDiff(as0, bs);
    assert changed <==> total != {} by {
      assert |r| != 0 ==> r[0] in ToSet(r);
    }
  }

  method BuildSet<T(==)>(b: seq<T>) returns (s: set<T>)
    ensures s == ToSet(b)
  {
    s := {};
    for i := 0 to |b|
      invariant s == ToSet(b[..i])
    {
      assert b[..i + 1] == b[..i] + [b[i]];
      s := s + {b[i]};
    }
    assert b[..|b|] == b;
  }

  /** Overwriting position `i` by the last value and dropping the last position removes
      exactly the value at `i`. */
  lemma SwapWithLast<T>(s: seq<T>, i: nat)
    requires i < |s| && NoDup(s)
    ensures var t := s[i := s[|s| - 1]][..|s| - 1];
            NoDup(t) && ToSet(t) == ToSet(s) - {s[i]}
  {
    var t := s[i := s[|s| - 1]][..|s| - 1];
    forall x | x in s && x != s[i]
      ensures x in t
    {
      var k :| 0 <= k < |s| && s[k] == x;
      if k == |s| - 1 {
        assert t[i] == x;
      } else {
        assert t[k] == x;
      }
    }
    forall x | x in t
      ensures x in s && x != s[i]
    {
      var k :| 0 <= k < |t| && t[k] == x;
      assert x == (if k == i then s[|s| - 1] else s[k]);
    }
  }

  /** Set differences compose on their own and undo themselves. */
  lemma SymDiffLaws<T>(o: set<T>, a: set<T>, b: set<T>)
    ensures SymDiff(o, SymDiff(a, b)) == SymDiff(SymDiff(o, a), b)
    ensures SymDiff(o, SymDiff(o, a)) == a
    ensures SymDiff(o, a) == o <==> a == {}
    ensures SymDiff(a, b) == {} <==> a == b
  {
    assert SymDiff(o, SymDiff(a, b)) == SymDiff(SymDiff(o, a), b);
    assert SymDiff(o, SymDiff(o, a)) == a;
    if SymDiff(o, a) == o {
      assert forall x :: x in a ==> (x in SymDiff(o, a)) != (x in o);
    }
    if SymDiff(a, b) == {} {
      assert forall x :: x in a && x !in b ==> x in SymDiff(a, b);
      assert forall x :: x in b && x !in a ==> x in SymDiff(a, b);
    }
  }

  // ---- maps ----

  /** What applying map difference `d` to `v` gives: a pair of `d` that is in `v` is removed,
      any other pair of `d` is written. */
  function MapApply<K, V(==)>(v: map<K, V>, d: map<K, V>): map<K, V> {
    map k | k in v.Keys + d.Keys && !(k in v && k in d && v[k] == d[k]) ::
      if k in d then d[k] else v[k]
  }

  /** The value at one key of the difference that composes `a` and `b` over original `o`,
      or None when the key drops out. */
  function ComposeAt<K, V(==)>(o: map<K, V>, a: map<K, V>, b: map<K, V>, k: K): Option<V> {
    if k !in b then
      if k in a then Some(a[k]) else None
    else if k in o && k in a && o[k] == b[k] then None
    else if k in o && k in a && a[k] == b[k] then Some(o[k])
    else if k in a && a[k] == b[k] then None
    else Some(b[k])
  }

  function MapCompose<K, V(==)>(o: map<K, V>, a: map<K, V>, b: map<K, V>): map<K, V> {
    map k | k in a.Keys + b.Keys && ComposeAt(o, a, b, k).Some? :: ComposeAt(o, a, b, k).value
  }

  function At<K, V>(m: map<K, V>, k: K): Option<V> {
    if k in m then Some(m[k]) else None
  }

  /** Composition of two map differences over an original map; with an empty original it is
      the difference of two maps. */
  method MergeMapDifference<K(==), V(==)>(o: map<K, V>, a: map<K, V>, b: map<K, V>)
    returns (r: map<K, V>, changed: bool)
    ensures r == MapCompose(o, a, b)
    ensures changed <==> MapApply(MapApply(o, a), b) != o
  {
    if |a| == 0 {
      ComposeWithEmpty(o, b);
      r := b;
    } else if |b| == 0 {
      ComposeWithEmpty(o, a);
      r := a;
    } else {
      r := ComposeInPlace(o, a, b);
    }
    changed := |r| != 0;
    ChangedExactly(o, a, b, r);
  }

  lemma ComposeWithEmpty<K, V>(o: map<K, V>, d: map<K, V>)
    ensures MapCompose(o, map[], d) == d == MapCompose(o, d, map[])
  {
  }

  lemma ChangedExactly<K, V>(o: map<K, V>, a: map<K, V>, b: map<K, V>, r: map<K, V>)
    requires r == MapCompose(o, a, b)
    ensures |r| != 0 <==> MapApply(MapApply(o, a), b) != o
  {
    MapComposition(o, a, b);
    assert |r| == 0 <==> r == map[];
  }

  method ComposeInPlace<K(==), V(==)>(o: map<K, V>, a: map<K, V>, b: map<K, V>) returns (r: map<K, V>)
    ensures r == MapCompose(o, a, b)
  {
    r := a;
    var todo := b.Keys;
    while todo != {}
      invariant todo <= b.Keys
      invariant forall k :: At(r, k) == if k in todo then At(a, k) else ComposeAt(o, a, b, k)
      decreases todo
    {
      var k :| k in todo;
      assert At(r, k) == At(a, k);
      if k in o && k in r && o[k] == b[k] {
        r := r - {k};
      } else if k in o && k in r && r[k] == b[k] {
        r := r[k := o[k]];
      } else if k in r && r[k] == b[k] {
        r := r - {k};
      } else {
        r := r[k := b[k]];
      }
      todo := todo - {k};
    }
    var c := MapCompose(o, a, b);
    forall k
      ensures k in r <==> k in c
      ensures k in r ==> r[k] == c[k]
    {
      assert At(r, k) == ComposeAt(o, a, b, k);
    }
  }

  /** Map delta composition: applying the composed difference equals applying the two
      differences in turn, and the composed difference is empty exactly when the two leave
      the original as it was. */
  lemma MapComposition<K, V>(o: map<K, V>, a: map<K, V>, b: map<K, V>)
    ensures MapApply(o, MapCompose(o, a, b)) == MapApply(MapApply(o, a), b)
    ensures MapCompose(o, a, b) == map[] <==> MapApply(MapApply(o, a), b) == o
  {
    var c := MapCompose(o, a, b);
    var l, r := MapApply(o, c), MapApply(MapApply(o, a), b);
    forall k
      ensures k in l <==> k in r
      ensures k in l ==> l[k] == r[k]
    {
    }
    assert l == r;
    MapApplyLaws(o, c);
  }

  /** A map difference applied to the original gives back the other map, and only the empty
      difference changes nothing. */
  lemma MapApplyLaws<K, V>(x: map<K, V>, y: map<K, V>)
    ensures MapApply(x, MapApply(x, y)) == y
    ensures MapApply(x, y) == x <==> y == map[]
    ensures MapApply(x, y) == MapCompose(map[], x, y)
    ensures MapApply(x, y) == map[] <==> x == y
  {
    assert MapApply(x, MapApply(x, y)) == y;
    assert MapApply(x, y) == MapCompose(map[], x, y);
    if y != map[] {
      var k :| k in y;
      assert At(MapApply(x, y), k) != At(x, k);
    }
    if MapApply(x, y) == map[] {
      forall k | k in x.Keys + y.Keys
        ensures k in x && k in y && x[k] == y[k]
      {
        assert k !in MapApply(x, y);
      }
      assert x == y;
    }
  }

  // ---- values ----

  /** The result of applying difference `d` to value `v`; by the same computation, the
      difference between `v` and `d`. */
  function Apply(v: Value, d: Value): Value {
    match (v, d)
    case (SetValue(s), SetValue(t)) => SetValue(SymDiff(s, t))
    case (MapValue(m), MapValue(n)) => MapValue(MapApply(m, n))
    case _ => d
  }

  /** `difference(a, b)`: the difference and whether there is one. */
  function Differ(a: Value, b: Value): (Value, bool) {
    var d := Apply(a, b);
    (d, if d.SetValue? then d.s != {} else if d.MapValue? then d.m != map[] else a != b)
  }

  /** `applyDifference(v, d)`: the new value and whether it is a change.  For sets and maps
      the flag of the difference is reinterpreted: an empty result of a non-empty delta is a
      change. */
  function ApplyDifference(v: Value, d: Value): (Value, bool) {
    var (result, changed) := Differ(v, d);
    var size := if d.SetValue? then |d.s| else if d.MapValue? then |d.m| else 0;
    if d.SetValue? || d.MapValue? then
      if !changed && size > 0 then (result, true) else (result, changed && size > 0)
    else (result, changed)
  }

  /** `mergeDifference(o, a, b)` for differences `a` and `b` over original value `o`. */
  function Compose(o: Value, a: Value, b: Value): (Value, bool) {
    match (o, a, b)
    case (_, SetValue(s), SetValue(t)) => (SetValue(SymDiff(s, t)), SymDiff(s, t) != {})
    case (MapValue(m), MapValue(s), MapValue(t)) =>
      (MapValue(MapCompose(m, s, t)), MapCompose(m, s, t) != map[])
    case _ => (b, o != b)
  }

  /** Self-inverse: applying the difference between `x` and `y` to `x` gives `y`, and both
      flags are true exactly when the value changes. */
  lemma DifferenceRoundTrip(x: Value, y: Value)
    requires SameKind(x, y)
    ensures ApplyDifference(x, Differ(x, y).0).0 == y
    ensures Differ(x, y).1 <==> x != y
    ensures ApplyDifference(x, Differ(x, y).0).1 <==> x != y
  {
    DifferFlag(x, y);
    ApplyTwice(x, y);
    ApplyFlagExact(x, Apply(x, y));
  }

  lemma DifferFlag(x: Value, y: Value)
    requires SameKind(x, y)
    ensures Differ(x, y).1 <==> x != y
  {
    match (x, y)
    case (SetValue(s), SetValue(t)) => SymDiffLaws(s, s, t);
    case (MapValue(m), MapValue(n)) => MapApplyLaws(m, n);
    case _ =>
  }

  lemma ApplyTwice(x: Value, y: Value)
    requires SameKind(x, y)
    ensures Apply(x, Apply(x, y)) == y && SameKind(x, Apply(x, y))
  {
    match (x, y)
    case (SetValue(s), SetValue(t)) => SymDiffLaws(s, t, t);
    case (MapValue(m), MapValue(n)) => MapApplyLaws(m, n);
    case _ =>
  }

  lemma SetFlag<T>(s: set<T>, t: set<T>)
    ensures |t| > 0 <==> SymDiff(s, t) != s
  {
    SymDiffLaws(s, t, t);
  }

  lemma MapFlag<K, V>(m: map<K, V>, d: map<K, V>)
    ensures |d| > 0 <==> MapApply(m, d) != m
  {
    MapApplyLaws(m, d);
    assert |d| > 0 <==> d != map[];
  }

  /** The flag of an applied difference is true exactly when the value changed. */
  lemma ApplyFlagExact(v: Value, d: Value)
    requires SameKind(v, d)
    ensures ApplyDifference(v, d).1 <==> ApplyDifference(v, d).0 != v
  {
    match (v, d)
    case (SetValue(s), SetValue(t)) =>
      SetFlag(s, t);
      assert ApplyDifference(v, d).1 <==> |t| > 0;
    case (MapValue(m), MapValue(n)) =>
      MapFlag(m, n);
      assert ApplyDifference(v, d).1 <==> |n| > 0;
    case _ =>
  }

  /** Composition of differences of any kind, over any original value: when `a` and `b` are
      applied in turn the result is that of the composed difference, and the flag is false
      exactly when the net effect is nothing. */
  lemma ComposeCorrect(o: Value, a: Value, b: Value)
    requires SameKind(o, a) && SameKind(a, b)
    ensures Compose(o, a, b).1 ==> Apply(o, Compose(o, a, b).0) == Apply(Apply(o, a), b)
    ensures Compose(o, a, b).1 <==> Apply(Apply(o, a), b) != o
    ensures SameKind(o, Compose(o, a, b).0)
  {
    match (o, a, b)
    case (SetValue(x), SetValue(s), SetValue(t)) =>
      SymDiffLaws(x, s, t);
      SymDiffLaws(x, SymDiff(s, t), t);
    case (MapValue(m), MapValue(s), MapValue(t)) =>
      MapComposition(m, s, t);
    case _ =>
  }
}
