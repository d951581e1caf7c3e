/** Queries by condition, answered through indexes where possible (cache/cache.go,
    cache/uuidset.go, ovsdb/condition.go). */
module Query {
  import opened Values
  import opened Difference
  import opened Cache

  datatype Function = Less | LessOrEqual | Equal | NotEqual | Greater | GreaterOrEqual | Includes | Excludes

  /** A condition with its value in native form. */
  datatype Condition = Condition(column: Column, function_: Function, value: Value)

  datatype QueryError = WrongValue | Unsupported

  const UUID_COLUMN: Column := "_uuid"

  // ---- evaluation ----

  method SliceContains<T(==)>(x: seq<T>, y: seq<T>) returns (r: bool)
    ensures r <==> ToSet(y) <= ToSet(x)
  {
    for i := 0 to |y|
      invariant forall k :: 0 <= k < i ==> y[k] in x
    {
      var found := false;
      for j := 0 to |x|
        invariant !found && y[i] !in x[..j]
      {
        if y[i] == x[j] {
          found := true;
          break;
        }
        assert x[..j + 1] == x[..j] + [x[j]];
      }
      if !found {
        assert x[..|x|] == x;
        assert y[i] in ToSet(y) && y[i] !in ToSet(x);
        return false;
      }
    }
    return true;
  }

  predicate SubMap<K, V(==)>(y: map<K, V>, x: map<K, V>) {
    forall k :: k in y ==> k in x && x[k] == y[k]
  }

  method MapContains<K(==), V(==)>(x: map<K, V>, y: map<K, V>) returns (r: bool)
    ensures r <==> SubMap(y, x)
  {
    var todo := y.Keys;
    while todo != {}
      invariant todo <= y.Keys
      invariant forall k :: k in y && k !in todo ==> k in x && x[k] == y[k]
      decreases todo
    {
      var k :| k in todo;
      if k !in x || x[k] != y[k] {
        return false;
      }
      todo := todo - {k};
    }
    return true;
  }

  /** Whether a column value includes another of the same type; None where that is not
      supported. */
  function IncludesValue(a: Value, b: Value): Option<bool> {
    match (a, b)
    case (SetValue(x), SetValue(y)) => Some(y <= x)
    case (MapValue(x), MapValue(y)) => Some(SubMap(y, x))
    case (AtomValue(x), AtomValue(y)) => Some(x == y)
    case _ => None
  }

  function Compare(f: Function, a: Value, b: Value): Option<bool> {
    match (a, b)
    case (AtomValue(IntAtom(x)), AtomValue(IntAtom(y))) =>
      Some(match f case Less => x < y case LessOrEqual => x <= y case Greater => x > y case _ => x >= y)
    case (AtomValue(RealAtom(x)), AtomValue(RealAtom(y))) =>
      Some(match f case Less => x < y case LessOrEqual => x <= y case Greater => x > y case _ => x >= y)
    case _ => None
  }

  /** `Evaluate`: None stands for an error. */
  function Evaluate(f: Function, a: Value, b: Value): Option<bool> {
    if !SameKind(a, b) || (a.AtomValue? && AtomTypeOf(a.a) != AtomTypeOf(b.a)) then None
    else match f
      case Equal => Some(a == b)
      case NotEqual => Some(a != b)
      case Includes => IncludesValue(a, b)
      case Excludes =>
        var included := IncludesValue(a, b);
        if included.None? then None else Some(!included.value)
      case _ => Compare(f, a, b)
  }

  function KindOf(ts: TableSchema, c: Column): Option<Kind> {
    if c == UUID_COLUMN then Some(AtomKind(UuidType)) else if c in ts then Some(ts[c].kind) else None
  }

  function FieldOf(uuid: Uuid, m: Model, c: Column): Option<Value> {
    if c == UUID_COLUMN then Some(AtomValue(UuidAtom(uuid))) else if c in m then Some(m[c]) else None
  }

  /** The value of the condition has the type of its column. */
  predicate TypedCondition(ts: TableSchema, c: Condition) {
    KindOf(ts, c.column).Some? && HasKind(c.value, KindOf(ts, c.column).value)
  }

  /** The function of the condition is supported on its column. */
  predicate SupportedCondition(ts: TableSchema, c: Condition)
    requires TypedCondition(ts, c)
  {
    match KindOf(ts, c.column).value
    case AtomKind(t) => t == IntType || t == RealType || c.function_ in {Equal, NotEqual, Includes, Excludes}
    case OptKind(_) => c.function_ in {Equal, NotEqual}
    case _ => c.function_ in {Equal, NotEqual, Includes, Excludes}
  }

  predicate Satisfies(uuid: Uuid, m: Model, c: Condition) {
    FieldOf(uuid, m, c.column).Some? && Evaluate(c.function_, FieldOf(uuid, m, c.column).value, c.value) == Some(true)
  }

  predicate SatisfiesAll(uuid: Uuid, m: Model, cs: seq<Condition>) {
    forall c :: c in cs ==> Satisfies(uuid, m, c)
  }

  /** The plain filter. */
  function Matching(cache: Rows, cs: seq<Condition>): Rows {
    map u | u in cache && SatisfiesAll(u, cache[u], cs) :: cache[u]
  }

  // ---- UUID sets ----

  /** `intersectUUIDSets`: nil, here None, when an operand is empty. */
  method IntersectUUIDSets(s1: set<Uuid>, s2: set<Uuid>) returns (r: Option<set<Uuid>>)
    ensures r == if s1 == {} || s2 == {} then None else Some(s1 * s2)
  {
    if |s1| == 0 || |s2| == 0 {
      return None;
    }
    var (big, small) := if |s1| > |s2| then (s1, s2) else (s2, s1);
    var f := {};
    var todo := small;
    while todo != {}
      invariant todo <= small && f == (small - todo) * big
      decreases todo
    {
      var u :| u in todo;
      if u in big {
        f := f + {u};
      }
      todo := todo - {u};
    }
    assert f == s1 * s2;
    return Some(f);
  }

  // ---- conditions as indexes ----

  /** Equality and inclusion in a map can be looked up, except on the row's own UUID; an
      inclusion in a set cannot. */
  predicate Indexable(c: Condition) {
    c.column != UUID_COLUMN && (c.function_ == Equal || (c.function_ == Includes && !c.value.SetValue?))
  }

  /** The column keys a condition fixes. */
  function KeysOf(c: Condition): Name {
    if c.function_ == Includes && c.value.MapValue? && c.value.m != map[]
    then set k | k in c.value.m :: ColumnKey(c.column, Some(k))
    else {ColumnKey(c.column, None)}
  }

  function NamesOf(cs: seq<Condition>): Name {
    if cs == [] then {} else NamesOf(cs[..|cs| - 1]) + KeysOf(cs[|cs| - 1])
  }

  /** The row built from the values of conditions: a later condition on a column overwrites an
      earlier one. */
  function Built(ts: TableSchema, cs: seq<Condition>): Model {
    if cs == [] then ModelOf(ts, map[])
    else Built(ts, cs[..|cs| - 1])[cs[|cs| - 1].column := cs[|cs| - 1].value]
  }

  predicate TypedOn(ts: TableSchema, cs: seq<Condition>) {
    forall c :: c in cs ==> c.column in ts && HasKind(c.value, ts[c.column].kind)
  }

  lemma {:induction false} BuiltTyped(ts: TableSchema, cs: seq<Condition>)
    requires TypedOn(ts, cs)
    ensures TypedModel(ts, Built(ts, cs))
  {
    if cs == [] {
    } else {
      BuiltTyped(ts, cs[..|cs| - 1]);
    }
  }

  lemma {:induction false} NamesHas(cs: seq<Condition>, k: ColumnKey)
    ensures k in NamesOf(cs) <==> exists i :: 0 <= i < |cs| && k in KeysOf(cs[i])
  {
    if cs == [] {
    } else {
      var n := |cs| - 1;
      NamesHas(cs[..n], k);
      if i :| 0 <= i < |cs| && k in KeysOf(cs[i]) {
        assert i < n ==> cs[..n][i] == cs[i];
      }
    }
  }

  /** The last condition on a column decides the built value. */
  lemma {:induction false} BuiltAt(ts: TableSchema, cs: seq<Condition>, i: nat)
    requires i < |cs| && forall j :: i < j < |cs| ==> cs[j].column != cs[i].column
    ensures cs[i].column in Built(ts, cs) && Built(ts, cs)[cs[i].column] == cs[i].value
  {
    var n := |cs| - 1;
    if i < n {
      assert forall j :: i < j < n ==> cs[..n][j] == cs[j];
      BuiltAt(ts, cs[..n], i);
    }
  }

  /** There is a last condition on the column of condition `i`. */
  lemma LastOn(cs: seq<Condition>, i: nat) returns (j: nat)
    requires i < |cs|
    ensures i <= j < |cs| && cs[j].column == cs[i].column
    ensures forall k :: j < k < |cs| ==> cs[k].column != cs[i].column
    decreases |cs| - i
  {
    if k :| i < k < |cs| && cs[k].column == cs[i].column {
      j := LastOn(cs, k);
    } else {
      j := i;
    }
  }

  /** No index is over a whole set or map column. */
  predicate NoWholeCollections(ts: TableSchema, s: IndexSpec)
    requires WellFormedSpec(ts, s)
  {
    forall k :: k in s.columns && k.key.None? ==> !ts[k.column].kind.SetKind? && !ts[k.column].kind.MapKind?
  }

  /** The built row still has every key that some `includes` condition asks for. */
  predicate NoLostKey(ts: TableSchema, cs: seq<Condition>)
    requires TypedOn(ts, cs)
  {
    BuiltTyped(ts, cs);
    forall i, k :: 0 <= i < |cs| && cs[i].function_ == Includes && cs[i].value.MapValue? && k in cs[i].value.m ==>
      (assert HasKind(cs[i].value, ts[cs[i].column].kind);
       KeyValue(ts, Built(ts, cs), ColumnKey(cs[i].column, Some(k))) == AtomValue(cs[i].value.m[k]))
  }

  /** The setting of a lookup: conditions that can be looked up and the index they name. */
  predicate Looked(ts: TableSchema, cs: seq<Condition>, s: IndexSpec) {
    && WellFormedSpec(ts, s) && NoWholeCollections(ts, s)
    && TypedOn(ts, cs) && (forall c :: c in cs ==> Indexable(c))
    && NameOf(s) == NamesOf(cs)
  }

  /** A condition on a whole column that a row satisfies fixes its value. */
  lemma FixesColumn(ts: TableSchema, uuid: Uuid, m: Model, c: Condition)
    requires TypedModel(ts, m) && c.column in ts && HasKind(c.value, ts[c.column].kind)
    requires !ts[c.column].kind.SetKind? && !ts[c.column].kind.MapKind?
    requires Indexable(c) && Satisfies(uuid, m, c)
    ensures c.value == m[c.column]
  {
    assert HasKind(m[c.column], ts[c.column].kind);
  }

  lemma WholeColumn(ts: TableSchema, uuid: Uuid, m: Model, cs: seq<Condition>, s: IndexSpec, k: ColumnKey)
    requires Looked(ts, cs, s) && TypedModel(ts, m) && SatisfiesAll(uuid, m, cs)
    requires k in s.columns && k.key.None?
    ensures k.column in Built(ts, cs) && Built(ts, cs)[k.column] == m[k.column]
  {
    assert k in NameOf(s);
    NamesHas(cs, k);
    var i :| 0 <= i < |cs| && k in KeysOf(cs[i]);
    var j := LastOn(cs, i);
    BuiltAt(ts, cs, j);
    assert cs[j] in cs;
    FixesColumn(ts, uuid, m, cs[j]);
  }

  /** An `includes` condition on a map that the row satisfies fixes the value at its keys. */
  lemma IncludedKey(ts: TableSchema, uuid: Uuid, m: Model, cs: seq<Condition>, i: nat, k: Atom)
    requires TypedOn(ts, cs) && TypedModel(ts, m) && SatisfiesAll(uuid, m, cs) && (forall c :: c in cs ==> Indexable(c))
    requires i < |cs| && cs[i].function_ == Includes && cs[i].value.MapValue? && k in cs[i].value.m
    ensures ts[cs[i].column].kind.MapKind?
    ensures KeyValue(ts, m, ColumnKey(cs[i].column, Some(k))) == AtomValue(cs[i].value.m[k])
  {
    assert cs[i] in cs;
    assert Satisfies(uuid, m, cs[i]);
    assert HasKind(cs[i].value, ts[cs[i].column].kind) && HasKind(m[cs[i].column], ts[cs[i].column].kind);
  }

  /** The built row has the same index values as a row that satisfies the conditions exactly
      when it has lost none of the keys asked for. */
  lemma LookupExact(ts: TableSchema, uuid: Uuid, m: Model, cs: seq<Condition>, s: IndexSpec)
    requires Looked(ts, cs, s) && TypedModel(ts, m) && SatisfiesAll(uuid, m, cs)
    ensures TypedModel(ts, Built(ts, cs))
    ensures (forall k :: k in s.columns ==> KeyValue(ts, Built(ts, cs), k) == KeyValue(ts, m, k)) <==> NoLostKey(ts, cs)
  {
    BuiltTyped(ts, cs);
    if NoLostKey(ts, cs) {
      forall k | k in s.columns
        ensures KeyValue(ts, Built(ts, cs), k) == KeyValue(ts, m, k)
      {
        BuiltAgrees(ts, uuid, m, cs, s, k);
      }
    }
    if forall k :: k in s.columns ==> KeyValue(ts, Built(ts, cs), k) == KeyValue(ts, m, k) {
      forall i, k | 0 <= i < |cs| && cs[i].function_ == Includes && cs[i].value.MapValue? && k in cs[i].value.m
        ensures ts[cs[i].column].kind.MapKind?
        ensures KeyValue(ts, Built(ts, cs), ColumnKey(cs[i].column, Some(k))) == AtomValue(cs[i].value.m[k])
      {
        KeyNamed(ts, uuid, m, cs, s, i, k);
      }
    }
  }

  lemma BuiltAgrees(ts: TableSchema, uuid: Uuid, m: Model, cs: seq<Condition>, s: IndexSpec, k: ColumnKey)
    requires Looked(ts, cs, s) && TypedModel(ts, m) && SatisfiesAll(uuid, m, cs) && NoLostKey(ts, cs) && k in s.columns
    ensures TypedModel(ts, Built(ts, cs)) && KeyValue(ts, Built(ts, cs), k) == KeyValue(ts, m, k)
  {
    BuiltTyped(ts, cs);
    if k.key.None? {
      WholeColumn(ts, uuid, m, cs, s, k);
    } else {
      assert k in NamesOf(cs);
      NamesHas(cs, k);
      var i :| 0 <= i < |cs| && k in KeysOf(cs[i]);
      IncludedKey(ts, uuid, m, cs, i, k.key.value);
    }
  }

  lemma KeyNamed(ts: TableSchema, uuid: Uuid, m: Model, cs: seq<Condition>, s: IndexSpec, i: nat, k: Atom)
    requires Looked(ts, cs, s) && TypedModel(ts, m) && SatisfiesAll(uuid, m, cs)
    requires i < |cs| && cs[i].function_ == Includes && cs[i].value.MapValue? && k in cs[i].value.m
    ensures cs[i].column in ts && ts[cs[i].column].kind.MapKind? && ColumnKey(cs[i].column, Some(k)) in s.columns
    ensures KeyValue(ts, m, ColumnKey(cs[i].column, Some(k))) == AtomValue(cs[i].value.m[k])
  {
    var ck := ColumnKey(cs[i].column, Some(k));
    IncludedKey(ts, uuid, m, cs, i, k);
    assert ck in KeysOf(cs[i]);
    NamesHas(cs, ck);
    assert ck in NameOf(s);
  }

  // ---- one lookup ----

  /** What the index of the conditions holds for the row built from them. */
  function LookedUp(su: Setup, indexes: Indexes, cs: seq<Condition>, s: IndexSpec): set<Uuid>
    requires Looked(su.ts, cs, s) && NameOf(s) in indexes
  {
    BuiltTyped(su.ts, cs);
    IndexEntry(indexes[NameOf(s)], IndexedBy(su, Built(su.ts, cs), s))
  }

  ghost predicate ExactIndex(su: Setup, cache: Rows, indexes: Indexes, s: IndexSpec) {
    && WellFormedSpec(su.ts, s) && NameOf(s) in indexes
    && (forall u :: u in cache ==> TypedModel(su.ts, cache[u]))
    && IndexExact(indexes[NameOf(s)], Held(su, cache, s))
  }

  /** A lookup finds a row that satisfies its conditions when the built row has lost no key that
      is asked for and, unless the hash confuses the two rows, only then. */
  lemma LookupFinds(su: Setup, cache: Rows, indexes: Indexes, uuid: Uuid, cs: seq<Condition>, s: IndexSpec)
    requires Looked(su.ts, cs, s) && ExactIndex(su, cache, indexes, s)
    requires uuid in cache && SatisfiesAll(uuid, cache[uuid], cs)
    ensures TypedModel(su.ts, Built(su.ts, cs))
    ensures NoLostKey(su.ts, cs) ==> uuid in LookedUp(su, indexes, cs, s)
    ensures NoCollision(su, cache[uuid], Built(su.ts, cs), s) ==>
      (uuid in LookedUp(su, indexes, cs, s) <==> NoLostKey(su.ts, cs))
  {
    var (ts, m, b) := (su.ts, cache[uuid], Built(su.ts, cs));
    LookupExact(ts, uuid, m, cs, s);
    assert uuid in LookedUp(su, indexes, cs, s) <==> IndexedBy(su, m, s) == IndexedBy(su, b, s) by {
      assert Held(su, cache, s)[uuid] == IndexedBy(su, m, s);
    }
    if NoLostKey(ts, cs) {
      SameHashedValues(ts, b, m, s.columns);
    } else if NoCollision(su, m, b, s) {
      LostKeyShows(su, uuid, m, cs, s);
    }
  }

  lemma LostKeyShows(su: Setup, uuid: Uuid, m: Model, cs: seq<Condition>, s: IndexSpec)
    requires Looked(su.ts, cs, s) && TypedModel(su.ts, m) && SatisfiesAll(uuid, m, cs)
    requires TypedModel(su.ts, Built(su.ts, cs)) && !NoLostKey(su.ts, cs)
    requires NoCollision(su, m, Built(su.ts, cs), s)
    ensures IndexedBy(su, m, s) != IndexedBy(su, Built(su.ts, cs), s)
  {
    var (ts, b) := (su.ts, Built(su.ts, cs));
    LookupExact(ts, uuid, m, cs, s);
    var k :| k in s.columns && KeyValue(ts, b, k) != KeyValue(ts, m, k);
    var i :| 0 <= i < |s.columns| && s.columns[i] == k;
    forall k | k in s.columns
      ensures KeyValue(ts, b, k) == OptValue(None) <==> KeyValue(ts, m, k) == OptValue(None)
    {
      if k.key.None? {
        WholeColumn(ts, uuid, m, cs, s, k);
      }
    }
    DifferentHashedValues(ts, b, m, s.columns, i);
  }

  // ---- the power set of conditions ----

  /** `sub` is `cs` with some conditions left out. */
  predicate Sublist(sub: seq<Condition>, cs: seq<Condition>) {
    if cs == [] then sub == []
    else
      var n := |cs| - 1;
      Sublist(sub, cs[..n]) || (sub != [] && sub[|sub| - 1] == cs[n] && Sublist(sub[..|sub| - 1], cs[..n]))
  }

  lemma {:induction false} SublistHas(sub: seq<Condition>, cs: seq<Condition>)
    requires Sublist(sub, cs)
    ensures forall c :: c in sub ==> c in cs
  {
    if cs != [] {
      var n := |cs| - 1;
      assert forall c :: c in cs[..n] ==> c in cs;
      if Sublist(sub, cs[..n]) {
        SublistHas(sub, cs[..n]);
      } else {
        SublistHas(sub[..|sub| - 1], cs[..n]);
        assert sub == sub[..|sub| - 1] + [sub[|sub| - 1]];
      }
    }
  }

  lemma {:induction false} SublistOfPrefix(sub: seq<Condition>, cs: seq<Condition>, n: nat)
    requires n <= |cs| && Sublist(sub, cs[..n])
    ensures Sublist(sub, cs)
    decreases |cs|
  {
    if n == |cs| {
      assert cs[..n] == cs;
    } else {
      assert cs[..|cs| - 1][..n] == cs[..n];
      SublistOfPrefix(sub, cs[..|cs| - 1], n);
    }
  }

  /** The conditions on a map column never make an index lookup lose a key.  So it is when no two
      `includes` conditions are on one map column, and when those that are cannot name an index
      together. */
  ghost predicate Benign(su: Setup, cs: seq<Condition>) {
    forall sub: seq<Condition>, s: IndexSpec | Sublist(sub, cs) && s in su.specs && Looked(su.ts, sub, s) :: NoLostKey(su.ts, sub)
  }

  predicate SingleIncludes(cs: seq<Condition>) {
    forall i, j :: 0 <= i < j < |cs| && cs[i].function_ == Includes && cs[i].value.MapValue? ==> cs[i].column != cs[j].column
  }

  lemma {:induction false} SingleIncludesSub(sub: seq<Condition>, cs: seq<Condition>)
    requires Sublist(sub, cs) && SingleIncludes(cs)
    ensures SingleIncludes(sub)
  {
    if cs != [] {
      var n := |cs| - 1;
      assert SingleIncludes(cs[..n]);
      if Sublist(sub, cs[..n]) {
        SingleIncludesSub(sub, cs[..n]);
      } else {
        var init := sub[..|sub| - 1];
        SingleIncludesSub(init, cs[..n]);
        SublistHas(init, cs[..n]);
        forall i, j | 0 <= i < j < |sub| && sub[i].function_ == Includes && sub[i].value.MapValue?
          ensures sub[i].column != sub[j].column
        {
          assert init[i] == sub[i];
          if j < |init| {
            assert init[j] == sub[j];
          } else {
            assert init[i] in cs[..n];
            var k :| 0 <= k < n && cs[k] == sub[i];
          }
        }
      }
    }
  }

  /** One `includes` condition per map column is enough. */
  lemma SingleIncludesBenign(su: Setup, cs: seq<Condition>)
    requires SingleIncludes(cs)
    ensures Benign(su, cs)
  {
    forall sub: seq<Condition>, s: IndexSpec | Sublist(sub, cs) && s in su.specs && Looked(su.ts, sub, s)
      ensures NoLostKey(su.ts, sub)
    {
      SingleIncludesSub(sub, cs);
      BuiltTyped(su.ts, sub);
      forall i, k | 0 <= i < |sub| && sub[i].function_ == Includes && sub[i].value.MapValue? && k in sub[i].value.m
        ensures sub[i].column in su.ts && su.ts[sub[i].column].kind.MapKind?
        ensures KeyValue(su.ts, Built(su.ts, sub), ColumnKey(sub[i].column, Some(k))) == AtomValue(sub[i].value.m[k])
      {
        BuiltAt(su.ts, sub, i);
        assert HasKind(sub[i].value, su.ts[sub[i].column].kind);
      }
    }
  }

  lemma OneKey(c: Column, k: Atom, v: Atom)
    ensures KeysOf(Condition(c, Includes, MapValue(map[k := v]))) == {ColumnKey(c, Some(k))}
  {
    var m: map<Atom, Atom> := map[k := v];
    assert k in m;
    assert m != map[];
  }

  const IDS: TableSchema := map["ids" := ColumnSchema(MapKind(StrType, StrType), true, "", false, false)]

  function Asks(k: Atom, v: Atom): Condition {
    Condition("ids", Includes, MapValue(map[k := v]))
  }

  lemma TwoNames(a: Atom, b: Atom, x: Atom)
    ensures NamesOf([Asks(a, x), Asks(b, x)]) == {ColumnKey("ids", Some(a)), ColumnKey("ids", Some(b))}
  {
    var cs := [Asks(a, x), Asks(b, x)];
    assert cs[..1] == [Asks(a, x)] && [Asks(a, x)][..0] == [];
    OneKey("ids", a, x);
    OneKey("ids", b, x);
    assert NamesOf([Asks(a, x)]) == NamesOf([]) + KeysOf(Asks(a, x));
  }

  lemma TwoKeysLookedUp(a: Atom, b: Atom, x: Atom)
    requires a.StrAtom? && b.StrAtom? && x.StrAtom?
    ensures Looked(IDS, [Asks(a, x), Asks(b, x)], IndexSpec([ColumnKey("ids", Some(a)), ColumnKey("ids", Some(b))], ClientIndex))
  {
    TwoNames(a, b, x);
    assert TypedOn(IDS, [Asks(a, x), Asks(b, x)]);
  }

  lemma TwoKeysLost(a: Atom, b: Atom, x: Atom)
    requires a.StrAtom? && b.StrAtom? && x.StrAtom? && a != b && x != StrAtom("")
    requires TypedOn(IDS, [Asks(a, x), Asks(b, x)])
    ensures !NoLostKey(IDS, [Asks(a, x), Asks(b, x)])
  {
    var cs := [Asks(a, x), Asks(b, x)];
    BuiltTyped(IDS, cs);
    BuiltAt(IDS, cs, 1);
    assert a in cs[0].value.m;
    assert KeyValue(IDS, Built(IDS, cs), ColumnKey(cs[0].column, Some(a))) != AtomValue(cs[0].value.m[a]);
  }

  /** Two `includes` conditions on one map column and an index over both keys: a row that
      satisfies them is missed, because a key is lost. */
  lemma LostKeyExample(a: Atom, b: Atom, x: Atom, uuid: Uuid)
    requires a.StrAtom? && b.StrAtom? && x.StrAtom? && a != b && x != StrAtom("")
    ensures
      var cs := [Asks(a, x), Asks(b, x)];
      var s := IndexSpec([ColumnKey("ids", Some(a)), ColumnKey("ids", Some(b))], ClientIndex);
      var m: Model := map["ids" := MapValue(map[a := x, b := x])];
      && Looked(IDS, cs, s) && TypedModel(IDS, m)
      && SatisfiesAll(uuid, m, cs) && !NoLostKey(IDS, cs)
  {
    TwoKeysLookedUp(a, b, x);
    TwoKeysLost(a, b, x);
  }

  // ---- the candidates ----

  /** A cache whose indexes are exact and none over a whole set or map column. */
  ghost predicate Usable(su: Setup, cache: Rows, indexes: Indexes) {
    && ValidCache(su, cache, indexes) && CheckedCache(su, cache, indexes)
    && forall s :: s in su.specs ==> NoWholeCollections(su.ts, s)
  }

  lemma UsableIndex(su: Setup, cache: Rows, indexes: Indexes, s: IndexSpec)
    requires Usable(su, cache, indexes) && s in su.specs
    ensures ExactIndex(su, cache, indexes, s)
  {
    assert KeptAt(su, cache, indexes, s) && CheckedAt(su, cache, indexes, s);
  }

  /** Candidates found so far: None says nothing, a set has only cached rows and every row that
      satisfies the conditions. */
  ghost predicate Candidates(cache: Rows, cs: seq<Condition>, found: Option<set<Uuid>>) {
    found.Some? ==> found.value <= cache.Keys && Complete(cache, cs, found.value)
  }

  ghost predicate Complete(cache: Rows, cs: seq<Condition>, found: set<Uuid>) {
    forall u :: u in cache && SatisfiesAll(u, cache[u], cs) ==> u in found
  }

  /** `found` has only cached rows. */
  ghost predicate Cached(cache: Rows, found: Option<set<Uuid>>) {
    found.Some? ==> found.value <= cache.Keys
  }

  lemma EntryCached(su: Setup, cache: Rows, indexes: Indexes, s: IndexSpec, v: IndexValue)
    requires ValidCache(su, cache, indexes) && s in su.specs
    ensures IndexEntry(indexes[NameOf(s)], v) <= cache.Keys
  {
    assert KeptAt(su, cache, indexes, s);
    forall u | u in IndexEntry(indexes[NameOf(s)], v)
      ensures u in cache
    {
      assert u in Held(su, cache, s);
    }
  }

  lemma LookupComplete(su: Setup, cache: Rows, indexes: Indexes, cs: seq<Condition>, sub: seq<Condition>, s: IndexSpec)
    requires Usable(su, cache, indexes) && s in su.specs && Looked(su.ts, sub, s)
    requires Benign(su, cs) && Sublist(sub, cs)
    ensures Complete(cache, cs, LookedUp(su, indexes, sub, s))
  {
    UsableIndex(su, cache, indexes, s);
    SublistHas(sub, cs);
    forall u | u in cache && SatisfiesAll(u, cache[u], cs)
      ensures u in LookedUp(su, indexes, sub, s)
    {
      LookupFinds(su, cache, indexes, u, sub, s);
    }
  }

  /** What the index gives that a condition names by itself, if there is one. */
  ghost predicate FoundAlone(su: Setup, indexes: Indexes, cs: seq<Condition>, found: Option<set<Uuid>>)
    requires forall s :: s in su.specs ==> NameOf(s) in indexes
  {
    forall s :: s in su.specs && Looked(su.ts, cs, s) ==> found.Some? && found.value <= LookedUp(su, indexes, cs, s)
  }

  /** The row a set of conditions builds is looked up in the first index they name. */
  method EvaluateConditionSetAsIndex(r: RowCache, sub: seq<Condition>, ghost cs: seq<Condition>) returns (found: Option<set<Uuid>>)
    requires r.Valid() && TypedOn(r.su.ts, sub) && (forall c :: c in sub ==> Indexable(c)) && Sublist(sub, cs)
    ensures found.Some? <==> exists s :: s in r.su.specs && NameOf(s) == NamesOf(sub)
    ensures Cached(r.cache, found)
    ensures Usable(r.su, r.cache, r.indexes) && Benign(r.su, cs) ==> Candidates(r.cache, cs, found)
    ensures FoundAlone(r.su, r.indexes, sub, found)
  {
    BuiltTyped(r.su.ts, sub);
    var m := Built(r.su.ts, sub);
    for i := 0 to |r.su.specs|
      invariant forall j :: 0 <= j < i ==> NameOf(r.su.specs[j]) != NamesOf(sub)
    {
      var s := r.su.specs[i];
      if NameOf(s) == NamesOf(sub) {
        var uuids := IndexEntry(r.indexes[NameOf(s)], IndexedBy(r.su, m, s));
        EntryCached(r.su, r.cache, r.indexes, s, IndexedBy(r.su, m, s));
        if Usable(r.su, r.cache, r.indexes) && Benign(r.su, cs) {
          LookupComplete(r.su, r.cache, r.indexes, cs, sub, s);
        }
        return Some(uuids);
      }
    }
    return None;
  }

  /** Intersecting candidates gives candidates, whatever the operands. */
  method IntersectCandidates(matching: Option<set<Uuid>>, uuids: Option<set<Uuid>>, ghost cache: Rows, ghost cs: seq<Condition>)
    returns (found: Option<set<Uuid>>)
    requires Cached(cache, matching) && Cached(cache, uuids)
    ensures Cached(cache, found) && (matching.None? ==> found == uuids)
    ensures Candidates(cache, cs, matching) && Candidates(cache, cs, uuids) ==> Candidates(cache, cs, found)
  {
    if matching.None? {
      found := uuids;
    } else if uuids.Some? {
      found := IntersectUUIDSets(matching.value, uuids.value);
    } else {
      found := matching;
    }
  }

  /** The candidates after one more lookup. */
  method NarrowBy(r: RowCache, sub: seq<Condition>, ghost cs: seq<Condition>, matching: Option<set<Uuid>>) returns (found: Option<set<Uuid>>)
    requires r.Valid() && TypedOn(r.su.ts, sub) && (forall c :: c in sub ==> Indexable(c)) && Sublist(sub, cs)
    requires Cached(r.cache, matching)
    ensures Cached(r.cache, found) && (matching.None? ==> FoundAlone(r.su, r.indexes, sub, found))
    ensures Usable(r.su, r.cache, r.indexes) && Benign(r.su, cs) && Candidates(r.cache, cs, matching) ==> Candidates(r.cache, cs, found)
  {
    var uuids := EvaluateConditionSetAsIndex(r, sub, cs);
    found := IntersectCandidates(matching, uuids, r.cache, cs);
  }

  ghost predicate PowerSet(ts: TableSchema, ps: seq<seq<Condition>>, cs: seq<Condition>) {
    forall p :: p in ps ==> Sublist(p, cs) && TypedOn(ts, p) && forall c :: c in p ==> Indexable(c)
  }

  lemma PowerSetGrows(ts: TableSchema, ps: seq<seq<Condition>>, cs: seq<Condition>, i: nat)
    requires i < |cs| && PowerSet(ts, ps, cs[..i])
    ensures PowerSet(ts, ps, cs[..i + 1])
    ensures TypedOn(ts, [cs[i]]) && Indexable(cs[i]) ==>
      forall p :: p in ps ==> PowerSet(ts, [p + [cs[i]]], cs[..i + 1])
  {
    assert cs[..i + 1][..i] == cs[..i];
    forall p | p in ps && TypedOn(ts, [cs[i]]) && Indexable(cs[i])
      ensures PowerSet(ts, [p + [cs[i]]], cs[..i + 1])
    {
      assert (p + [cs[i]])[..|p|] == p;
      assert cs[i] in [cs[i]];
    }
  }

  /** `uuidsByConditionsAsIndexes`: wherever the walk over the subsets of the conditions stops,
      it has nothing, or a set with every row that satisfies all conditions. */
  method UuidsByConditionsAsIndexes(r: RowCache, cs: seq<Condition>) returns (matching: Option<set<Uuid>>)
    requires r.Valid() && forall c :: c in cs ==> TypedCondition(r.su.ts, c)
    ensures Cached(r.cache, matching)
    ensures Usable(r.su, r.cache, r.indexes) && Benign(r.su, cs) ==> Candidates(r.cache, cs, matching)
    ensures |cs| == 1 && Indexable(cs[0]) ==> FoundAlone(r.su, r.indexes, cs, matching)
  {
    matching := None;
    var ps: seq<seq<Condition>> := [[]];
    for i := 0 to |cs|
      invariant PowerSet(r.su.ts, ps, cs[..i])
      invariant Cached(r.cache, matching)
      invariant Usable(r.su, r.cache, r.indexes) && Benign(r.su, cs) ==> Candidates(r.cache, cs, matching)
      invariant i == 0 ==> matching.None? && ps == [[]]
      invariant |cs| == 1 && Indexable(cs[0]) && i == 1 ==> FoundAlone(r.su, r.indexes, cs, matching)
    {
      PowerSetGrows(r.su.ts, ps, cs, i);
      if Indexable(cs[i]) {
        assert TypedOn(r.su.ts, [cs[i]]) by { assert cs[i] in cs; }
        var ss: seq<seq<Condition>> := [];
        for j := 0 to |ps|
          invariant PowerSet(r.su.ts, ss, cs[..i + 1])
          invariant Cached(r.cache, matching)
          invariant Usable(r.su, r.cache, r.indexes) && Benign(r.su, cs) ==> Candidates(r.cache, cs, matching)
          invariant i == 0 && j == 0 ==> matching.None?
          invariant |cs| == 1 && j > 0 ==> FoundAlone(r.su, r.indexes, cs, matching)
        {
          var sub := ps[j] + [cs[i]];
          assert |cs| == 1 ==> sub == cs;
          assert PowerSet(r.su.ts, [sub], cs[..i + 1]) && sub in [sub];
          SublistOfPrefix(sub, cs, i + 1);
          matching := NarrowBy(r, sub, cs, matching);
          if matching.Some? && |matching.value| <= 1 {
            return;
          }
          ss := ss + [sub];
        }
        ps := ps + ss;
      }
    }
  }

  // ---- the query ----

  lemma SupportedEvaluates(ts: TableSchema, uuid: Uuid, m: Model, c: Condition)
    requires TypedModel(ts, m) && TypedCondition(ts, c)
    ensures FieldOf(uuid, m, c.column).Some?
    ensures SupportedCondition(ts, c) ==> Evaluate(c.function_, FieldOf(uuid, m, c.column).value, c.value).Some?
  {
    var k := KindOf(ts, c.column).value;
    var v := FieldOf(uuid, m, c.column).value;
    assert HasKind(v, k) && HasKind(c.value, k);
  }

  /** The rows among `among`, or among all rows, that satisfy one condition. */
  method MatchCondition(r: RowCache, c: Condition, among: Option<set<Uuid>>) returns (res: Result<set<Uuid>, QueryError>)
    requires r.Valid() && TypedCondition(r.su.ts, c) && Cached(r.cache, among)
    ensures res.Ok? ==> OneMatched(r.cache, c, among, res.value)
    ensures SupportedCondition(r.su.ts, c) ==> res.Ok?
  {
    if c.column == UUID_COLUMN && c.function_ in {Equal, Includes} {
      var uuid := c.value.a.u;
      return Ok(if uuid in r.cache then {uuid} else {});
    }
    var all := if among.Some? then among.value else r.cache.Keys;
    var todo := all;
    var matched := {};
    while todo != {}
      invariant todo <= all
      invariant forall u :: u in matched <==> u in all && u !in todo && Satisfies(u, r.cache[u], c)
      decreases todo
    {
      var u :| u in todo;
      SupportedEvaluates(r.su.ts, u, r.cache[u], c);
      var e := Evaluate(c.function_, FieldOf(u, r.cache[u], c.column).value, c.value);
      if e.None? {
        return Err(Unsupported);
      }
      if e.value {
        matched := matched + {u};
      }
      todo := todo - {u};
    }
    return Ok(matched);
  }

  method NativeValues(ts: TableSchema, cs: seq<Condition>) returns (ok: bool)
    ensures ok <==> forall c :: c in cs ==> TypedCondition(ts, c)
  {
    for i := 0 to |cs|
      invariant forall j :: 0 <= j < i ==> TypedCondition(ts, cs[j])
    {
      if !TypedCondition(ts, cs[i]) {
        return false;
      }
    }
    return true;
  }

  /** After the first `n` conditions: every remaining row satisfies them, and no row that
      satisfies all is lost. */
  ghost predicate Narrowed(cache: Rows, cs: seq<Condition>, n: nat, found: Option<set<Uuid>>)
    requires n <= |cs|
  {
    && Cached(cache, found)
    && (n > 0 ==> found.Some?)
    && (found.Some? ==> forall u :: u in found.value ==> u in cache && SatisfiesAll(u, cache[u], cs[..n]))
  }

  ghost predicate OneMatched(cache: Rows, c: Condition, among: Option<set<Uuid>>, matched: set<Uuid>) {
    && (forall u :: u in matched ==> u in cache && Satisfies(u, cache[u], c))
    && (forall u :: u in cache && (among.Some? ==> u in among.value) && Satisfies(u, cache[u], c) ==> u in matched)
  }

  lemma NarrowStep(cache: Rows, cs: seq<Condition>, n: nat, found: Option<set<Uuid>>, matched: set<Uuid>)
    requires n < |cs| && Narrowed(cache, cs, n, found) && OneMatched(cache, cs[n], found, matched)
    ensures Narrowed(cache, cs, n + 1, Some(if found.None? then matched else found.value * matched))
    ensures Candidates(cache, cs, found) ==> Complete(cache, cs, if found.None? then matched else found.value * matched)
  {
    assert cs[..n + 1] == cs[..n] + [cs[n]];
    forall u | u in cache && SatisfiesAll(u, cache[u], cs)
      ensures Satisfies(u, cache[u], cs[n])
    {
    }
  }

  /** `RowsByCondition`: only rows that satisfy every condition and, when the indexes can be used
      and no lookup loses a key, all of them. */
  method RowsByCondition(r: RowCache, cs: seq<Condition>) returns (res: Result<Rows, QueryError>)
    requires r.Valid()
    ensures res.Ok? ==> SubMap(res.value, Matching(r.cache, cs))
    ensures res.Ok? && (cs == [] || (Usable(r.su, r.cache, r.indexes) && Benign(r.su, cs))) ==>
      res.value == Matching(r.cache, cs)
    ensures res.Ok? && |cs| == 1 && Indexable(cs[0]) ==> FoundAlone(r.su, r.indexes, cs, Some(res.value.Keys))
    ensures res == Err(WrongValue) <==> exists c :: c in cs && !TypedCondition(r.su.ts, c)
    ensures (forall c :: c in cs ==> TypedCondition(r.su.ts, c) && SupportedCondition(r.su.ts, c)) ==> res.Ok?
  {
    if |cs| == 0 {
      assert Matching(r.cache, cs) == r.cache;
      return Ok(r.cache);
    }
    var typed := NativeValues(r.su.ts, cs);
    if !typed {
      return Err(WrongValue);
    }
    ghost var exact := Usable(r.su, r.cache, r.indexes) && Benign(r.su, cs);
    var matching := UuidsByConditionsAsIndexes(r, cs);
    ghost var indexed := matching;
    var i := 0;
    while i < |cs|
      invariant i <= |cs| && Narrowed(r.cache, cs, i, matching)
      invariant exact ==> Candidates(r.cache, cs, matching)
      invariant indexed.Some? ==> matching.Some? && matching.value <= indexed.value
    {
      assert cs[i] in cs;
      var m := MatchCondition(r, cs[i], matching);
      if m.Err? {
        return Err(Unsupported);
      }
      NarrowStep(r.cache, cs, i, matching, m.value);
      if matching.None? {
        matching := Some(m.value);
      } else {
        matching := IntersectUUIDSets(matching.value, m.value);
      }
      if matching.None? || matching.value == {} {
        assert exact ==> Matching(r.cache, cs) == map[];
        return Ok(map[]);
      }
      i := i + 1;
    }
    assert cs[..|cs|] == cs;
    var rows: Rows := map u | u in matching.value :: r.cache[u];
    assert exact ==> rows == Matching(r.cache, cs);
    return Ok(rows);
  }
}
