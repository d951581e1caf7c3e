/** What operations mean in elementary terms: arithmetic, sets and maps for mutations, plain columns
    for updates, and order, equality and inclusion for conditions (updates/mutate.go,
    updates/updates.go, ovsdb/condition.go). */
module Meanings {
  import opened Values
  import opened Difference
  import opened Merge
  import opened Mutations
  import opened Operations
  import opened Cache
  import Query
  import Overlay
  import Replication

  // ---- what mutations mean ----

  /** A mutation of one column leaves all others as they are. */
  lemma OneMutation(ts: TableSchema, m: Model, mu: Mutation)
    requires TypedModel(ts, m)
    ensures MutateAll(ts, m, [mu]) == MutateColumn(ts, m, mu)
    ensures var r := MutateAll(ts, m, [mu]); r.Ok? ==> r.value.Keys == m.Keys && forall c :: c in m && c != mu.column ==> r.value[c] == m[c]
  {
    assert [mu][..0] == [];
  }

  /** An integer column that accepts mutations. */
  predicate Counter(ts: TableSchema, m: Model, c: Column) {
    && TypedModel(ts, m) && c in ts && ts[c].kind == AtomKind(IntType) && ts[c].mutable && !ts[c].enum
    && -TWO_63 <= m[c].a.i < TWO_63
  }

  /** The value of a column after a number of mutations that succeed. */
  function NumberAfter(ts: TableSchema, m: Model, mus: seq<Mutation>, c: Column): int
    requires TypedModel(ts, m) && MutateAll(ts, m, mus).Ok? && c in ts && ts[c].kind == AtomKind(IntType)
  {
    MutateAll(ts, m, mus).value[c].a.i
  }

  function By(c: Column, f: Mutator, y: int): Mutation {
    Mutation(c, f, AtomValue(IntAtom(y)))
  }

  predicate Fits64(i: int) {
    -TWO_63 <= i < TWO_63
  }

  lemma WrapFits(i: int)
    ensures Fits64(i) ==> Wrap64(i) == i
  {
  }

  /** Integer arithmetic: a result that fits in 64 bits is the sum, the difference, the product, the
      quotient towards zero or its remainder; one that does not is off by a multiple of 2^64. */
  ghost predicate ArithmeticResult(f: Mutator, x: int, y: int, z: int) {
    && Fits64(z)
    && (f == Add ==> (z - (x + y)) % TWO_64 == 0 && (Fits64(x + y) ==> z == x + y))
    && (f == Subtract ==> (z - (x - y)) % TWO_64 == 0 && (Fits64(x - y) ==> z == x - y))
    && (f == Multiply ==> (z - x * y) % TWO_64 == 0 && (Fits64(x * y) ==> z == x * y))
    && (f == Divide && !(x == -TWO_63 && y == -1) ==> Quotient(x, y, z))
    && (f == Modulo && Fits64(y) ==> exists q :: q * y + z == x && Quotient(x, y, q))
  }

  lemma SumResult(f: Mutator, x: int, y: int)
    requires f in {Add, Subtract, Multiply}
    ensures ArithmeticResult(f, x, y, Compute(f, IntAtom(x), IntAtom(y)).i)
  {
    WrapFits(x + y);
    WrapFits(x - y);
    WrapFits(x * y);
  }

  lemma QuotientResult(x: int, y: int)
    requires y != 0 && Fits64(x)
    ensures ArithmeticResult(Divide, x, y, Compute(Divide, IntAtom(x), IntAtom(y)).i)
    ensures ArithmeticResult(Modulo, x, y, Compute(Modulo, IntAtom(x), IntAtom(y)).i)
  {
    var q := TruncDiv(x, y);
    DividesInto(x, y);
    WrapFits(q);
    WrapFits(x - q * y);
    assert Fits64(y) ==> q * y + Compute(Modulo, IntAtom(x), IntAtom(y)).i == x;
  }

  /** An integer column after a mutation: only division by zero fails. */
  lemma IntegerMutation(ts: TableSchema, m: Model, c: Column, f: Mutator, y: int)
    requires Counter(ts, m, c) && f !in {Insert, Delete}
    ensures MutateAll(ts, m, [By(c, f, y)]).Err? <==> y == 0 && f in {Divide, Modulo}
    ensures !(y == 0 && f in {Divide, Modulo}) ==> ArithmeticResult(f, m[c].a.i, y, NumberAfter(ts, m, [By(c, f, y)], c))
  {
    OneMutation(ts, m, By(c, f, y));
    if f in {Add, Subtract, Multiply} {
      SumResult(f, m[c].a.i, y);
    } else if y != 0 {
      QuotientResult(m[c].a.i, y);
    }
  }

  /** `q` is `x` divided by `y` towards zero: the remainder is smaller than the divisor and has the
      sign of the dividend. */
  predicate Quotient(x: int, y: int, q: int) {
    var r := x - q * y;
    (r == 0 || (r < 0 <==> x < 0)) && -Size(y) < r < Size(y)
  }

  function Size(i: int): int {
    if i < 0 then -i else i
  }

  lemma DividesInto(x: int, y: int)
    requires y != 0 && Fits64(x)
    ensures Quotient(x, y, TruncDiv(x, y))
    ensures !(x == -TWO_63 && y == -1) ==> Fits64(TruncDiv(x, y))
    ensures Fits64(y) ==> Fits64(x - TruncDiv(x, y) * y)
  {
    var q := TruncDiv(x, y);
    QuotientSmall(x, y, q);
  }

  lemma QuotientSmall(x: int, y: int, q: int)
    requires y != 0 && Quotient(x, y, q)
    ensures Size(q) <= Size(x) && (Size(y) > 1 && x != 0 ==> Size(q) < Size(x))
  {
    if q != 0 {
      ProductSize(q, y);
      SmallerPart(x, q * y, y);
    }
  }

  lemma SmallerPart(x: int, p: int, y: int)
    requires Size(p) >= Size(y) > 0
    requires var r := x - p; (r == 0 || (r < 0 <==> x < 0)) && -Size(y) < r < Size(y)
    ensures Size(p) <= Size(x)
  {
  }

  lemma ProductSize(q: int, y: int)
    requires q != 0 && y != 0
    ensures Size(q * y) >= Size(q) && Size(q * y) >= Size(y) && (Size(y) > 1 ==> Size(q * y) >= 2 * Size(q))
  {
    var (a, b) := (Size(q), Size(y));
    assert q * y == a * b || q * y == -(a * b);
    AtLeast(a, b);
    AtLeast(b, a);
  }

  lemma AtLeast(a: int, b: int)
    requires a >= 1 && b >= 1
    ensures a * b >= a && (b >= 2 ==> a * b >= 2 * a)
  {
    assert a * (b - 1) >= 0;
    assert b >= 2 ==> a * (b - 2) >= 0;
    assert a * (b - 1) == a * b - a && a * (b - 2) == a * b - 2 * a;
  }

  /** Adding an amount and taking it away again, or the other way round, gives the old row. */
  lemma AddAndSubtract(ts: TableSchema, m: Model, c: Column, y: int)
    requires Counter(ts, m, c)
    ensures MutateAll(ts, m, [By(c, Add, y), By(c, Subtract, y)]) == Ok(m)
    ensures MutateAll(ts, m, [By(c, Subtract, y), By(c, Add, y)]) == Ok(m)
  {
    UndoMutation(ts, m, c, Add, Subtract, y);
    UndoMutation(ts, m, c, Subtract, Add, y);
  }

  lemma UndoMutation(ts: TableSchema, m: Model, c: Column, f: Mutator, g: Mutator, y: int)
    requires Counter(ts, m, c) && ((f == Add && g == Subtract) || (f == Subtract && g == Add))
    ensures MutateAll(ts, m, [By(c, f, y), By(c, g, y)]) == Ok(m)
  {
    var mus := [By(c, f, y), By(c, g, y)];
    IntegerMutation(ts, m, c, f, y);
    OneMutation(ts, m, By(c, f, y));
    var n := MutateAll(ts, m, [By(c, f, y)]).value;
    IntegerMutation(ts, n, c, g, y);
    OneMutation(ts, n, By(c, g, y));
    SameResidue(m[c].a.i, MutateAll(ts, n, [By(c, g, y)]).value[c].a.i, n[c].a.i, if f == Add then y else -y);
    assert mus[..1] == [By(c, f, y)];
    assert MutateAll(ts, n, [By(c, g, y)]).value == m;
  }

  lemma SameResidue(x: int, z: int, n: int, y: int)
    requires Fits64(x) && Fits64(z) && (n - (x + y)) % TWO_64 == 0 && (z - (n - y)) % TWO_64 == 0
    ensures z == x
  {
    assert (z - x) % TWO_64 == 0;
  }

  /** Real arithmetic. */
  lemma RealMutation(ts: TableSchema, m: Model, c: Column, f: Mutator, y: real)
    requires TypedModel(ts, m) && c in ts && ts[c].kind == AtomKind(RealType) && ts[c].mutable && !ts[c].enum
    ensures var (x, r) := (m[c].a.r, MutateAll(ts, m, [Mutation(c, f, AtomValue(RealAtom(y)))]));
      && (r.Ok? <==> f in {Add, Subtract, Multiply} || (f == Divide && y != 0.0))
      && (r.Ok? ==> r.value[c].AtomValue? && r.value[c].a.RealAtom? &&
                    var z := r.value[c].a.r;
                    && (f == Add ==> z == x + y) && (f == Subtract ==> z == x - y) && (f == Multiply ==> z == x * y)
                    && (f == Divide ==> z * y == x))
  {
    OneMutation(ts, m, Mutation(c, f, AtomValue(RealAtom(y))));
  }

  /** A set column after a mutation. */
  lemma SetMutation(ts: TableSchema, m: Model, c: Column, f: Mutator, t: set<Atom>)
    requires TypedModel(ts, m) && c in ts && ts[c].kind.SetKind? && HasKind(SetValue(t), ts[c].kind)
    ensures var r := MutateAll(ts, m, [Mutation(c, f, SetValue(t))]);
      && (r.Ok? <==> ts[c].mutable && f in {Insert, Delete})
      && (r.Ok? ==> r.value[c].SetValue? &&
                    var (s, n) := (m[c].s, r.value[c].s);
                    && (f == Insert ==> s <= n && t <= n && n <= s + t)
                    && (f == Delete ==> n <= s && n !! t && s - n <= t))
  {
    OneMutation(ts, m, Mutation(c, f, SetValue(t)));
  }

  /** A map column after pairs are inserted or deleted. */
  lemma PairMutation(ts: TableSchema, m: Model, c: Column, f: Mutator, y: map<Atom, Atom>)
    requires TypedModel(ts, m) && c in ts && ts[c].kind.MapKind? && HasKind(MapValue(y), ts[c].kind)
    ensures var r := MutateAll(ts, m, [Mutation(c, f, MapValue(y))]);
      && (r.Ok? <==> ts[c].mutable && f in {Insert, Delete})
      && (r.Ok? ==> r.value[c].MapValue? &&
                    var (x, n) := (m[c].m, r.value[c].m);
                    && (f == Insert ==> n.Keys == x.Keys + y.Keys && (forall k :: k in n ==> n[k] == if k in x then x[k] else y[k]))
                    && (f == Delete ==> (forall k :: k in n ==> k in x && n[k] == x[k]) &&
                                        forall k :: k in x ==> (k !in n <==> k in y && y[k] == x[k])))
  {
    OneMutation(ts, m, Mutation(c, f, MapValue(y)));
  }

  /** A map column after keys are deleted. */
  lemma KeyMutation(ts: TableSchema, m: Model, c: Column, t: set<Atom>)
    requires TypedModel(ts, m) && c in ts && ts[c].kind.MapKind? && HasKind(SetValue(t), SetKind(ts[c].kind.k, 0)) && ts[c].mutable
    ensures var r := MutateAll(ts, m, [Mutation(c, Delete, SetValue(t))]);
      r.Ok? && r.value[c] == MapValue(m[c].m - t)
  {
    OneMutation(ts, m, Mutation(c, Delete, SetValue(t)));
  }

  /** What a mutation needs: a mutable column and a mutator and value that go with its type. */
  predicate Acceptable(cs: ColumnSchema, f: Mutator, v: Value) {
    cs.mutable &&
    match cs.kind
    case AtomKind(IntType) =>
      !cs.enum && v.AtomValue? && v.a.IntAtom? && f !in {Insert, Delete} && (v.a.i == 0 ==> f !in {Divide, Modulo})
    case AtomKind(RealType) =>
      !cs.enum && v.AtomValue? && v.a.RealAtom? && f !in {Insert, Delete, Modulo} && (v.a.r == 0.0 ==> f != Divide)
    case SetKind(_, _) => f in {Insert, Delete} && HasKind(v, cs.kind)
    case MapKind(k, _) => (f in {Insert, Delete} && HasKind(v, cs.kind)) || (f == Delete && HasKind(v, SetKind(k, 0)))
    case _ => false
  }

  /** A mutation fails exactly when its column is known and does not accept it; one of an unknown
      column does nothing. */
  lemma MutationFails(ts: TableSchema, m: Model, mu: Mutation)
    requires TypedModel(ts, m)
    ensures MutateAll(ts, m, [mu]).Err? <==> mu.column in ts && !Acceptable(ts[mu.column], mu.mutator, mu.value)
    ensures mu.column !in ts ==> MutateAll(ts, m, [mu]) == Ok(m)
  {
    OneMutation(ts, m, mu);
  }

  /** Mutations are made in order, and the first that fails ends them. */
  lemma {:induction false} MutationsCompose(ts: TableSchema, m: Model, xs: seq<Mutation>, ys: seq<Mutation>)
    requires TypedModel(ts, m)
    ensures MutateAll(ts, m, []) == Ok(m)
    ensures MutateAll(ts, m, xs).Err? ==> MutateAll(ts, m, xs + ys).Err?
    ensures MutateAll(ts, m, xs).Ok? ==> MutateAll(ts, m, xs + ys) == MutateAll(ts, MutateAll(ts, m, xs).value, ys)
  {
    if ys == [] {
      assert xs + ys == xs;
    } else {
      var (front, last) := (ys[..|ys| - 1], ys[|ys| - 1]);
      MutationsCompose(ts, m, xs, front);
      assert (xs + ys)[..|xs + ys| - 1] == xs + front && (xs + ys)[|xs + ys| - 1] == last;
    }
  }

  // ---- what conditions mean ----

  /** The value of a row that a condition is about. */
  function Subject(uuid: Uuid, m: Model, c: Query.Condition): Value
    requires c.column == "_uuid" || c.column in m
  {
    if c.column == "_uuid" then AtomValue(UuidAtom(uuid)) else m[c.column]
  }

  predicate Below(v: Value, w: Value) {
    || (v.AtomValue? && w.AtomValue? && v.a.IntAtom? && w.a.IntAtom? && v.a.i < w.a.i)
    || (v.AtomValue? && w.AtomValue? && v.a.RealAtom? && w.a.RealAtom? && v.a.r < w.a.r)
  }

  /** A set holds all elements, a map all pairs, and anything else is the same value. */
  ghost predicate Holds(v: Value, w: Value) {
    if v.SetValue? && w.SetValue? then forall a :: a in w.s ==> a in v.s
    else if v.MapValue? && w.MapValue? then forall k :: k in w.m ==> k in v.m && v.m[k] == w.m[k]
    else v == w
  }

  /** What a condition says of a value, as section 5.1 of RFC 7047 has it. */
  ghost predicate Says(f: Query.Function, v: Value, w: Value) {
    && (f == Query.Equal ==> v == w)
    && (f == Query.NotEqual ==> v != w)
    && (f == Query.Includes ==> Holds(v, w))
    && (f == Query.Excludes ==> !Holds(v, w))
    && (f == Query.Less ==> Below(v, w))
    && (f == Query.LessOrEqual ==> Below(v, w) || v == w)
    && (f == Query.Greater ==> Below(w, v))
    && (f == Query.GreaterOrEqual ==> Below(w, v) || v == w)
  }

  /** A row satisfies a condition that its column supports exactly when the condition is true of its
      value. */
  lemma ConditionMeans(ts: TableSchema, uuid: Uuid, m: Model, c: Query.Condition)
    requires TypedModel(ts, m) && Query.TypedCondition(ts, c) && Query.SupportedCondition(ts, c)
    ensures c.column == "_uuid" || c.column in m
    ensures Query.Satisfies(uuid, m, c) <==> Says(c.function_, Subject(uuid, m, c), c.value)
  {
    var k := Query.KindOf(ts, c.column).value;
    assert HasKind(c.value, k) && HasKind(Subject(uuid, m, c), k);
  }

  /** The rows that match are exactly those of which every condition is true. */
  lemma MatchingMeans(ts: TableSchema, rows: Rows, cs: seq<Query.Condition>, u: Uuid)
    requires Overlay.AllTyped(ts, rows)
    requires forall c :: c in cs ==> Query.TypedCondition(ts, c) && Query.SupportedCondition(ts, c)
    ensures forall c :: c in cs && u in rows ==> c.column == "_uuid" || c.column in rows[u]
    ensures u in Query.Matching(rows, cs) <==> u in rows && forall c :: c in cs ==> Says(c.function_, Subject(u, rows[u], c), c.value)
    ensures u in Query.Matching(rows, cs) ==> Query.Matching(rows, cs)[u] == rows[u]
  {
    if u in rows {
      forall c | c in cs
        ensures c.column == "_uuid" || c.column in rows[u]
        ensures Query.Satisfies(u, rows[u], c) <==> Says(c.function_, Subject(u, rows[u], c), c.value)
      {
        ConditionMeans(ts, u, rows[u], c);
      }
    }
  }

  /** Functions that are each other's complement, and the order. */
  lemma ConditionLaws(ts: TableSchema, uuid: Uuid, m: Model, column: Column, w: Value)
    requires TypedModel(ts, m) && Query.TypedCondition(ts, Query.Condition(column, Query.Equal, w))
    ensures var met := (f: Query.Function) => Query.Satisfies(uuid, m, Query.Condition(column, f, w));
      && (met(Query.NotEqual) <==> !met(Query.Equal))
      && (!w.OptValue? ==> (met(Query.Excludes) <==> !met(Query.Includes)))
      && (w.AtomValue? && (w.a.IntAtom? || w.a.RealAtom?) ==>
            && (met(Query.Less) <==> !met(Query.GreaterOrEqual)) && (met(Query.Greater) <==> !met(Query.LessOrEqual))
            && (met(Query.LessOrEqual) <==> met(Query.Less) || met(Query.Equal))
            && !(met(Query.Less) && met(Query.Greater)))
  {
    var k := Query.KindOf(ts, column).value;
    assert column != "_uuid" ==> HasKind(m[column], k);
  }

  /** Which functions a column supports: order on numbers only, inclusion on all but optional values,
      equality on all. */
  lemma SupportMeans(ts: TableSchema, c: Query.Condition)
    requires Query.TypedCondition(ts, c)
    ensures Query.SupportedCondition(ts, c) <==>
      || c.function_ in {Query.Equal, Query.NotEqual}
      || (c.function_ in {Query.Includes, Query.Excludes} && !c.value.OptValue?)
      || (c.value.AtomValue? && (c.value.a.IntAtom? || c.value.a.RealAtom?))
  {
  }

  /** A condition on the UUID of a row needs a UUID, any other a value of the type of its column; and
      the row that has a given UUID is found by it. */
  lemma UuidCondition(ts: TableSchema, c: Query.Condition, rows: Rows, u: Uuid)
    ensures Query.TypedCondition(ts, c) <==>
      if c.column == "_uuid" then c.value.AtomValue? && c.value.a.UuidAtom? else c.column in ts && HasKind(c.value, ts[c.column].kind)
    ensures Query.Matching(rows, [Query.Condition("_uuid", Query.Equal, AtomValue(UuidAtom(u)))]) == if u in rows then map[u := rows[u]] else map[]
  {
    var found := Query.Condition("_uuid", Query.Equal, AtomValue(UuidAtom(u)));
    forall u' | u' in rows
      ensures Query.SatisfiesAll(u', rows[u'], [found]) <==> u' == u
    {
      assert found in [found];
      assert Query.Satisfies(u', rows[u'], found) <==> u' == u;
    }
  }

  /** The nested search loops compute what `includes` means on sets. */
  method IncludesSlice(x: seq<Atom>, y: seq<Atom>) returns (r: bool)
    ensures r <==> Holds(SetValue(ToSet(x)), SetValue(ToSet(y)))
  {
    r := Query.SliceContains(x, y);
  }

  method IncludesMap(x: map<Atom, Atom>, y: map<Atom, Atom>) returns (r: bool)
    ensures r <==> Holds(MapValue(x), MapValue(y))
  {
    r := Query.MapContains(x, y);
  }

  // ---- what operations on a table mean ----

  /** Every value of an update has the type of its column, and no immutable column would change. */
  ghost predicate Updatable(ts: TableSchema, m: Model, row: Row) {
    forall c :: c in row && c in ts ==> HasKind(row[c], ts[c].kind) && (c in m && (ts[c].mutable || row[c] == m[c]))
  }

  /** One row after an operation on existing rows. */
  lemma AfterAt(ts: TableSchema, rows: Rows, op: Overlay.Operation, u: Uuid)
    requires Overlay.AllTyped(ts, rows) && !op.Insert?
    ensures u !in Query.Matching(rows, op.where) ==> At(Overlay.AfterOne(ts, rows, op), u) == At(rows, u)
    ensures u in Query.Matching(rows, op.where) && Overlay.Effect(ts, rows[u], op).Some? ==>
      At(Overlay.AfterOne(ts, rows, op), u) == Overlay.Effect(ts, rows[u], op).value
  {
    Overlay.AffectedAt(ts, rows, Query.Matching(rows, op.where).Keys, op, u);
  }

  lemma UpdateEffect(ts: TableSchema, m: Model, where: seq<Query.Condition>, row: Row)
    requires TypedModel(ts, m) && Updatable(ts, m, row)
    ensures var e := Overlay.Effect(ts, m, Overlay.Update(where, row));
      && e.Some? && e.value.Some? && e.value.value.Keys == m.Keys
      && forall c :: c in m ==> e.value.value[c] == if c in row then row[c] else m[c]
  {
    UpdateRefused(ts, m, row);
  }

  /** After an update every row that matched has the values of the change row and its old ones
      elsewhere, and all other rows are as they were. */
  lemma UpdateMeans(ts: TableSchema, rows: Rows, where: seq<Query.Condition>, row: Row, u: Uuid)
    requires Overlay.AllTyped(ts, rows) && (u in Query.Matching(rows, where) ==> Updatable(ts, rows[u], row))
    ensures var r := Overlay.AfterOne(ts, rows, Overlay.Update(where, row));
      && (u !in Query.Matching(rows, where) ==> At(r, u) == At(rows, u))
      && (u in Query.Matching(rows, where) ==>
            && u in r && r[u].Keys == rows[u].Keys
            && forall c :: c in rows[u] ==> r[u][c] == if c in row then row[c] else rows[u][c])
  {
    AfterAt(ts, rows, Overlay.Update(where, row), u);
    if u in Query.Matching(rows, where) {
      UpdateEffect(ts, rows[u], where, row);
    }
  }

  /** After a delete exactly the rows that matched are gone. */
  lemma DeleteMeans(ts: TableSchema, rows: Rows, where: seq<Query.Condition>)
    requires Overlay.AllTyped(ts, rows)
    ensures Overlay.AfterOne(ts, rows, Overlay.Delete(where)) == rows - Query.Matching(rows, where).Keys
  {
  }

  lemma SelectMeans(ts: TableSchema, rows: Rows, where: seq<Query.Condition>)
    requires Overlay.AllTyped(ts, rows)
    ensures Overlay.AfterOne(ts, rows, Overlay.Select(where)) == rows
  {
  }

  /** After an insert the new row has the given values and zero values elsewhere. */
  lemma InsertMeans(ts: TableSchema, rows: Rows, uuid: Uuid, row: Row)
    requires Overlay.AllTyped(ts, rows) && forall c :: c in row && c in ts ==> HasKind(row[c], ts[c].kind)
    ensures var r := Overlay.AfterOne(ts, rows, Overlay.Insert(uuid, row));
      && r - {uuid} == rows - {uuid} && uuid in r && r[uuid].Keys == ts.Keys
      && (forall c :: c in ts && c in row ==> r[uuid][c] == row[c])
      && (forall c :: c in ts && c !in row ==> Zero(ts[c].kind, r[uuid][c]))
  {
  }

  /** The zero value of a type: 0, false, the empty string, no value, the empty set or map. */
  predicate Zero(k: Kind, v: Value) {
    match k
    case AtomKind(IntType) => v == AtomValue(IntAtom(0))
    case AtomKind(RealType) => v == AtomValue(RealAtom(0.0))
    case AtomKind(BoolType) => v == AtomValue(BoolAtom(false))
    case AtomKind(StrType) => v == AtomValue(StrAtom(""))
    case AtomKind(UuidType) => v == AtomValue(UuidAtom(""))
    case OptKind(_) => v == OptValue(None)
    case SetKind(_, _) => v == SetValue({})
    case MapKind(_, _) => v == MapValue(map[])
  }

  /** After a mutate every row that matched is mutated, and all other rows are as they were. */
  lemma MutateMeans(ts: TableSchema, rows: Rows, where: seq<Query.Condition>, mus: seq<Mutation>, u: Uuid)
    requires Overlay.AllTyped(ts, rows) && (u in Query.Matching(rows, where) ==> MutateAll(ts, rows[u], mus).Ok?)
    ensures var r := Overlay.AfterOne(ts, rows, Overlay.Mutate(where, mus));
      && (u !in Query.Matching(rows, where) ==> At(r, u) == At(rows, u))
      && (u in Query.Matching(rows, where) ==> u in r && MutateAll(ts, rows[u], mus) == Ok(r[u]))
  {
    AfterAt(ts, rows, Overlay.Mutate(where, mus), u);
  }

  /** An operation fails exactly when an inserted value has the wrong type, when a row is found that
      the transaction has changed so that it does not match any more, or when a row that matches
      cannot be updated or mutated. */
  lemma OperationFails(ts: TableSchema, db: Rows, view: Rows, op: Overlay.Operation)
    requires Overlay.AllTyped(ts, db) && Overlay.AllTyped(ts, view)
    ensures op.Insert? ==> (Overlay.Fails(ts, db, view, op) <==> exists c :: c in op.row && c in ts && !HasKind(op.row[c], ts[c].kind))
    ensures !op.Insert? ==> (Overlay.Fails(ts, db, view, op) <==>
      || (exists u :: u in Query.Matching(db, op.where) && u in view && u !in Query.Matching(view, op.where))
      || (op.Update? && exists u :: u in Query.Matching(view, op.where) && !Updatable(ts, view[u], op.row))
      || (op.Mutate? && exists u :: u in Query.Matching(view, op.where) && MutateAll(ts, view[u], op.mutations).Err?))
  {
    if !op.Insert? {
      StaleMeans(db, view, op.where);
      RefusingMeans(ts, view, op);
    }
  }

  lemma StaleMeans(db: Rows, view: Rows, where: seq<Query.Condition>)
    ensures Overlay.Stale(db, view, where) <==> exists u :: u in Query.Matching(db, where) && u in view && u !in Query.Matching(view, where)
  {
    if Overlay.Stale(db, view, where) {
      var u :| u in db && u in view && Query.SatisfiesAll(u, db[u], where) && !Query.SatisfiesAll(u, view[u], where);
      assert u in Query.Matching(db, where) && u !in Query.Matching(view, where);
    }
  }

  lemma RefusingMeans(ts: TableSchema, view: Rows, op: Overlay.Operation)
    requires Overlay.AllTyped(ts, view) && !op.Insert?
    ensures Overlay.Refusing(ts, view, op) <==>
      || (op.Update? && exists u :: u in Query.Matching(view, op.where) && !Updatable(ts, view[u], op.row))
      || (op.Mutate? && exists u :: u in Query.Matching(view, op.where) && MutateAll(ts, view[u], op.mutations).Err?)
  {
    forall u | u in Query.Matching(view, op.where)
      ensures Overlay.Effect(ts, view[u], op).None? <==>
        (op.Update? && !Updatable(ts, view[u], op.row)) || (op.Mutate? && MutateAll(ts, view[u], op.mutations).Err?)
    {
      if op.Update? {
        UpdateRefused(ts, view[u], op.row);
      }
    }
  }

  // ---- what rows and notifications mean ----

  /** Zero, the empty string, no UUID or the all-zero one, no value, and nothing in a set or map; a
      boolean is always written. */
  predicate LeftOut(v: Value) {
    || v in {AtomValue(IntAtom(0)), AtomValue(RealAtom(0.0)), AtomValue(StrAtom("")), AtomValue(UuidAtom(""))}
    || v in {AtomValue(UuidAtom("00000000-0000-0000-0000-000000000000")), OptValue(None), SetValue({}), MapValue(map[])}
  }

  /** A row in OVSDB notation has every column that is not left out. */
  lemma RowShows(m: Model, c: Column)
    ensures c in RowOf(m) <==> c in m && !LeftOut(m[c])
    ensures c in RowOf(m) ==> RowOf(m)[c] == m[c]
  {
  }

  /** `n` is `v` after the difference `d`: elements and pairs that are given go if they are there
      and come if they are not, a pair with another value takes it, and any other value is new. */
  ghost predicate Turns(v: Value, d: Value, n: Value) {
    if v.SetValue? && d.SetValue? then n.SetValue? && forall a :: a in n.s <==> (a in v.s) != (a in d.s)
    else if v.MapValue? && d.MapValue? then
      && n.MapValue?
      && (forall k :: k in n.m <==> (k in v.m || k in d.m) && !(k in v.m && k in d.m && v.m[k] == d.m[k]))
      && (forall k :: k in n.m ==> n.m[k] == if k in d.m then d.m[k] else v.m[k])
    else n == d
  }

  lemma ApplyTurns(v: Value, d: Value)
    ensures Turns(v, d, Apply(v, d))
    ensures forall n :: Turns(v, d, n) ==> n == Apply(v, d)
  {
    forall n | Turns(v, d, n)
      ensures n == Apply(v, d)
    {
      if v.SetValue? && d.SetValue? {
        assert n.s == SymDiff(v.s, d.s);
      } else if v.MapValue? && d.MapValue? {
        assert n.m == MapApply(v.m, d.m);
      }
    }
  }

  /** A modification is refused by a value of the wrong type or that would change an immutable
      column. */
  ghost predicate Modifiable(ts: TableSchema, m: Model, d: Row) {
    forall c :: c in d && c in ts && c in m ==> HasKind(d[c], ts[c].kind) && (ts[c].mutable || Turns(m[c], d[c], m[c]))
  }

  lemma ModificationMeans(ts: TableSchema, m: Model, d: Row)
    requires TypedModel(ts, m)
    ensures (forall c :: c in d ==> !Refused(ts, m, d, true, c)) <==> Modifiable(ts, m, d)
    ensures Changed(ts, m, d, true).Keys == m.Keys
    ensures forall c :: c in m ==> if c in d then Turns(m[c], d[c], Changed(ts, m, d, true)[c]) else Changed(ts, m, d, true)[c] == m[c]
  {
    forall c | c in m && c in d
      ensures Turns(m[c], d[c], Apply(m[c], d[c]))
      ensures Turns(m[c], d[c], m[c]) <==> Apply(m[c], d[c]) == m[c]
    {
      ApplyTurns(m[c], d[c]);
    }
  }

  /** The row of a notification about a new row. */
  ghost predicate TakenAsGiven(ts: TableSchema, row: Row, n: Model) {
    n.Keys == ts.Keys && forall c :: c in ts ==> if c in row then n[c] == row[c] else Zero(ts[c].kind, n[c])
  }

  /** The row after a notification about a modification. */
  ghost predicate TurnedBy(ts: TableSchema, m: Model, d: Row, n: Model)
    requires TypedModel(ts, m)
  {
    n.Keys == ts.Keys && forall c :: c in ts ==> if c in d then Turns(m[c], d[c], n[c]) else n[c] == m[c]
  }

  /** What a replica does with a notification: a new row is taken as given, with zero values for what
      is left out, unless the row is there already; a modification is made and a deletion followed
      if the row is there. */
  lemma NotificationMeans(ts: TableSchema, current: Option<Model>, ru: RowUpdate2)
    requires Replication.TypedIf(ts, current)
    ensures var (ok, r) := (Replication.Applicable(ts, current, ru), Replication.Received(ts, current, ru));
      var row := if ru.initial.Some? then ru.initial else ru.insert;
      if row.Some? then
        && (ok <==> current.None? && forall c :: c in row.value && c in ts ==> HasKind(row.value[c], ts[c].kind))
        && r.Some? && TakenAsGiven(ts, row.value, r.value)
      else if ru.delta.Some? then
        && (ok <==> current.Some? && Modifiable(ts, current.value, ru.delta.value))
        && (ok ==> r.Some? && TurnedBy(ts, current.value, ru.delta.value, r.value))
      else (ok <==> current.Some?) && r.None?
  {
    if current.Some? && ru.delta.Some? {
      ModificationMeans(ts, current.value, ru.delta.value);
    }
  }

  // ---- what the invariants of a cache and of a replica mean ----

  /** A client index has under every value exactly the cached rows with that value, a schema index no
      others; in a checked cache a schema index has them all. */
  lemma IndexMeans(su: Setup, cache: Rows, indexes: Indexes, s: IndexSpec, u: Uuid, v: IndexValue)
    requires ValidCache(su, cache, indexes) && s in su.specs
    ensures u in IndexEntry(indexes[NameOf(s)], v) ==> u in cache && IndexedBy(su, cache[u], s) == v
    ensures u in cache && IndexedBy(su, cache[u], s) == v && (s.kind == ClientIndex || CheckedCache(su, cache, indexes)) ==>
      u in IndexEntry(indexes[NameOf(s)], v)
  {
    var vs := Held(su, cache, s);
    assert u in cache ==> vs[u] == IndexedBy(su, cache[u], s);
    assert KeptAt(su, cache, indexes, s);
    assert CheckedCache(su, cache, indexes) ==> CheckedAt(su, cache, indexes, s);
    EntryMeans(s.kind, indexes[NameOf(s)], vs, u, v);
  }

  lemma EntryMeans(kind: IndexKind, t: IndexTable, vs: Holdings, u: Uuid, v: IndexValue)
    requires Kept(kind, t, vs)
    ensures u in IndexEntry(t, v) ==> u in vs && vs[u] == v
    ensures (kind == ClientIndex || IndexExact(t, vs)) && u in vs && vs[u] == v ==> u in IndexEntry(t, v)
  {
  }

  /** In a checked cache no two rows have the same value in a schema index. */
  lemma CheckedMeans(su: Setup, cache: Rows, indexes: Indexes, s: IndexSpec, u: Uuid, u': Uuid)
    requires CheckedCache(su, cache, indexes) && s in su.specs && s.kind == SchemaIndex && u in cache && u' in cache
    ensures IndexedBy(su, cache[u], s) == IndexedBy(su, cache[u'], s) ==> u == u'
  {
    assert CheckedAt(su, cache, indexes, s);
    var vs := Held(su, cache, s);
    assert vs[u] == IndexedBy(su, cache[u], s) && vs[u'] == IndexedBy(su, cache[u'], s);
  }

  /** A replica that mirrors a server has the same rows in every requested table, with the same value
      in every requested column. */
  lemma ReplicaMeans(request: Replication.Requests, server: Replication.Server, caches: Replication.Caches, t: Table, u: Uuid)
    requires Replication.Mirrors(request, server, caches) && t in request && t in caches
    ensures t in server && (u in server[t] <==> u in caches[t].cache)
    ensures u in server[t] ==> forall c :: c in request[t].columns && c in server[t][u] ==>
      c in caches[t].cache[u] && caches[t].cache[u][c] == server[t][u][c]
  {
    assert Replication.SameRow(Replication.ColumnsOf(request[t]), At(server[t], u), At(caches[t].cache, u));
  }
}
