/** The indexed cache of the rows of one table (cache/cache.go, cache/uuidset.go). */
module Cache {
  import opened Values

  /** A column, or the value at one key of a map column. */
  datatype ColumnKey = ColumnKey(column: Column, key: Option<Atom>)

  datatype IndexKind = SchemaIndex | ClientIndex

  datatype IndexSpec = IndexSpec(columns: seq<ColumnKey>, kind: IndexKind)

  /** An index is named by the set of its column keys; the source joins their names with
      commas. */
  type Name = set<ColumnKey>

  function NameOf(s: IndexSpec): Name {
    set k | k in s.columns
  }

  /** The value of a row in an index: the value itself for one column, otherwise a hash. */
  datatype IndexValue = One(v: Value) | Hash(h: int)

  type IndexTable = map<IndexValue, set<Uuid>>

  datatype CacheError = Inconsistent | IndexExists

  predicate WellFormedSpec(ts: TableSchema, s: IndexSpec) {
    && |s.columns| > 0
    && forall k :: k in s.columns ==> k.column in ts && (k.key.Some? ==> ts[k.column].kind.MapKind?)
  }

  /** `valueFromColumnKey`: a set optional gives its atom, and a missing map key the zero value. */
  function KeyValue(ts: TableSchema, m: Model, k: ColumnKey): Value
    requires TypedModel(ts, m) && k.column in ts && (k.key.Some? ==> ts[k.column].kind.MapKind?)
  {
    var v := m[k.column];
    if k.key.Some? then
      assert HasKind(v, ts[k.column].kind);
      AtomValue(if k.key.value in v.m then v.m[k.key.value] else ZeroAtom(ts[k.column].kind.v))
    else if v.OptValue? && v.o.Some? then AtomValue(v.o.value)
    else v
  }

  /** The values that are hashed for an index of several columns; unset optionals are skipped. */
  function HashedValues(ts: TableSchema, m: Model, ks: seq<ColumnKey>): seq<Value>
    requires TypedModel(ts, m)
    requires forall k :: k in ks ==> k.column in ts && (k.key.Some? ==> ts[k.column].kind.MapKind?)
  {
    if ks == [] then []
    else
      var v := KeyValue(ts, m, ks[0]);
      (if v == OptValue(None) then [] else [v]) + HashedValues(ts, m, ks[1..])
  }

  /** `valueFromIndex`. */
  function ValueFromIndex(hash: seq<Value> -> int, ts: TableSchema, m: Model, s: IndexSpec): IndexValue
    requires TypedModel(ts, m) && WellFormedSpec(ts, s)
  {
    if |s.columns| > 1 then Hash(hash(HashedValues(ts, m, s.columns)))
    else One(KeyValue(ts, m, s.columns[0]))
  }

  // ---- one index ----

  function IndexEntry(t: IndexTable, v: IndexValue): set<Uuid> {
    if v in t then t[v] else {}
  }

  /** Writing an entry: a schema index replaces it, a client index adds to it. */
  function Added(kind: IndexKind, t: IndexTable, v: IndexValue, u: Uuid): IndexTable {
    if kind == SchemaIndex then t[v := {u}] else t[v := IndexEntry(t, v) + {u}]
  }

  /** Taking a row out of an entry, which is dropped when nothing is left. */
  function Taken(t: IndexTable, v: IndexValue, u: Uuid): IndexTable {
    if IndexEntry(t, v) - {u} == {} then t - {v} else t[v := t[v] - {u}]
  }

  /** The removal made by an update: a schema index drops the whole entry. */
  function Superseded(kind: IndexKind, t: IndexTable, v: IndexValue, u: Uuid): IndexTable {
    if kind == SchemaIndex then t - {v} else Taken(t, v, u)
  }

  /** The index values of the cached rows. */
  type Holdings = map<Uuid, IndexValue>

  /** Every value is mapped to exactly the rows that hold it, and no entry is empty. */
  ghost predicate IndexExact(t: IndexTable, vs: Holdings) {
    && (forall v, u :: u in IndexEntry(t, v) <==> u in vs && vs[u] == v)
    && (forall v :: v in t ==> t[v] != {})
  }

  /** Every indexed row is cached with the value it is indexed by, and no entry is empty. */
  ghost predicate IndexSound(t: IndexTable, vs: Holdings) {
    && (forall v, u :: u in IndexEntry(t, v) ==> u in vs && vs[u] == v)
    && (forall v :: v in t ==> t[v] != {})
  }

  ghost predicate Unique(vs: Holdings) {
    forall u, u' :: u in vs && u' in vs && vs[u] == vs[u'] ==> u == u'
  }

  /** No other row holds the value. */
  ghost predicate Free(vs: Holdings, u: Uuid, v: IndexValue) {
    forall u' :: u' in vs && u' != u ==> vs[u'] != v
  }

  /** What is kept of an index: exactness for a client index, soundness for a schema index. */
  ghost predicate Kept(kind: IndexKind, t: IndexTable, vs: Holdings) {
    if kind == ClientIndex then IndexExact(t, vs) else IndexSound(t, vs)
  }

  lemma AddKeeps(kind: IndexKind, t: IndexTable, vs: Holdings, u: Uuid, v: IndexValue)
    requires Kept(kind, t, vs) && u !in vs
    ensures Kept(kind, Added(kind, t, v, u), vs[u := v])
    ensures kind == SchemaIndex && IndexExact(t, vs) && Unique(vs) && Free(vs, u, v) ==>
      IndexExact(Added(kind, t, v, u), vs[u := v]) && Unique(vs[u := v])
  {
    var (t', vs') := (Added(kind, t, v, u), vs[u := v]);
    assert u in IndexEntry(t', v);
    NoEmptyEntry(t', v, u);
    forall v', u'
      ensures u' in IndexEntry(t', v') ==> u' in vs' && vs'[u'] == v'
      ensures IndexExact(t, vs) && (kind == ClientIndex || Free(vs, u, v)) && u' in vs' && vs'[u'] == v' ==> u' in IndexEntry(t', v')
    {
      assert u' in IndexEntry(t', v') <==>
        (if v' == v then u' == u || (kind == ClientIndex && u' in IndexEntry(t, v)) else u' in IndexEntry(t, v'));
      assert u' in IndexEntry(t, v') ==> u' in vs && vs[u'] == v';
    }
  }

  lemma NoEmptyEntry(t: IndexTable, v: IndexValue, u: Uuid)
    requires u in IndexEntry(t, v) && forall v' :: v' in t && v' != v ==> t[v'] != {}
    ensures forall v' :: v' in t ==> t[v'] != {}
  {
  }

  lemma OnlyOne<T>(s: set<T>, x: T)
    requires s - {x} == {}
    ensures forall y :: y in s ==> y == x
  {
    forall y | y in s
      ensures y == x
    {
      assert y in s - {x} || y == x;
    }
  }

  lemma TakeKeeps(kind: IndexKind, t: IndexTable, vs: Holdings, u: Uuid)
    requires Kept(kind, t, vs) && u in vs
    ensures Kept(kind, Taken(t, vs[u], u), vs - {u})
    ensures IndexExact(t, vs) && Unique(vs) ==> IndexExact(Taken(t, vs[u], u), vs - {u}) && Unique(vs - {u})
  {
    var t' := Taken(t, vs[u], u);
    forall v', u'
      ensures u' in IndexEntry(t', v') <==> u' in IndexEntry(t, v') && !(v' == vs[u] && u' == u)
    {
      if IndexEntry(t, vs[u]) - {u} == {} {
        OnlyOne(IndexEntry(t, vs[u]), u);
      }
    }
  }

  lemma ChangeKeeps(kind: IndexKind, t: IndexTable, vs: Holdings, u: Uuid, v: IndexValue)
    requires Kept(kind, t, vs) && u in vs && v != vs[u]
    ensures Kept(kind, Superseded(kind, Added(kind, t, v, u), vs[u], u), vs[u := v])
    ensures kind == SchemaIndex && IndexExact(t, vs) && Unique(vs) && Free(vs, u, v) ==>
      IndexExact(Superseded(kind, Added(kind, t, v, u), vs[u], u), vs[u := v]) && Unique(vs[u := v])
  {
    var (t1, v0, vs') := (Added(kind, t, v, u), vs[u], vs[u := v]);
    var t2 := Superseded(kind, t1, v0, u);
    assert IndexEntry(t1, v0) == IndexEntry(t, v0) && IndexEntry(t2, v) == IndexEntry(t1, v);
    if IndexEntry(t1, v0) - {u} == {} {
      OnlyOne(IndexEntry(t1, v0), u);
    }
    assert u in IndexEntry(t2, v);
    NoEmptyEntry(t2, v, u);
    forall v', u'
      ensures u' in IndexEntry(t2, v') ==> u' in vs' && vs'[u'] == v'
      ensures IndexExact(t, vs) && (kind == ClientIndex || (Unique(vs) && Free(vs, u, v))) && u' in vs' && vs'[u'] == v' ==>
        u' in IndexEntry(t2, v')
    {
      assert u' in IndexEntry(t2, v') <==>
        (if v' == v then u' == u || (kind == ClientIndex && u' in IndexEntry(t, v))
         else if v' == v0 then kind == ClientIndex && u' in IndexEntry(t, v0) && u' != u
         else u' in IndexEntry(t, v'));
      assert u' in IndexEntry(t, v') ==> u' in vs && vs[u'] == v';
    }
  }

  /** Without checks, updating a row keeps a schema index exact for exactly those rows that share
      neither the old nor the new value with another row. */
  lemma UncheckedUpdateExact(t: IndexTable, vs: Holdings, u: Uuid, v: IndexValue)
    requires IndexExact(t, vs) && u in vs && v != vs[u]
    ensures IndexExact(Superseded(SchemaIndex, Added(SchemaIndex, t, v, u), vs[u], u), vs[u := v]) <==>
      Free(vs, u, v) && Free(vs, u, vs[u])
  {
    var (v0, vs') := (vs[u], vs[u := v]);
    var t' := Superseded(SchemaIndex, Added(SchemaIndex, t, v, u), v0, u);
    forall v', u'
      ensures u' in IndexEntry(t', v') <==> (if v' == v then u' == u else v' != v0 && u' in IndexEntry(t, v'))
    {
    }
    if IndexExact(t', vs') {
      forall u' | u' in vs && u' != u
        ensures vs[u'] != v && vs[u'] != v0
      {
        assert u' in IndexEntry(t', vs'[u']);
      }
    }
    if Free(vs, u, v) && Free(vs, u, v0) {
      assert u in IndexEntry(t', v);
      NoEmptyEntry(t', v, u);
      forall v', u'
        ensures u' in IndexEntry(t', v') <==> u' in vs' && vs'[u'] == v'
      {
        assert u' in IndexEntry(t, v') <==> u' in vs && vs[u'] == v';
      }
    }
  }

  /** Without checks, creating a row keeps a schema index exact for exactly those values that no
      other row holds. */
  lemma UncheckedCreateExact(t: IndexTable, vs: Holdings, u: Uuid, v: IndexValue)
    requires IndexExact(t, vs) && u !in vs
    ensures IndexExact(Added(SchemaIndex, t, v, u), vs[u := v]) <==> Free(vs, u, v)
  {
    var (t', vs') := (Added(SchemaIndex, t, v, u), vs[u := v]);
    if IndexExact(t', vs') {
      forall u' | u' in vs && u' != u
        ensures vs[u'] != v
      {
        assert u' in IndexEntry(t', vs'[u']);
      }
    }
    if Free(vs, u, v) {
      assert u in IndexEntry(t', v);
      NoEmptyEntry(t', v, u);
      forall v', u'
        ensures u' in IndexEntry(t', v') <==> u' in vs' && vs'[u'] == v'
      {
        assert u' in IndexEntry(t, v') <==> u' in vs && vs[u'] == v';
      }
    }
  }

  /** With an exact index, an entry is in the way of a row exactly when another row holds the
      value. */
  lemma ConflictIsShared(t: IndexTable, vs: Holdings, u: Uuid, v: IndexValue)
    requires IndexExact(t, vs)
    ensures IndexEntry(t, v) != {} && IndexEntry(t, v) != {u} ==> !Free(vs, u, v)
    ensures Unique(vs) && !Free(vs, u, v) && (u in vs ==> vs[u] != v) ==> IndexEntry(t, v) != {} && IndexEntry(t, v) != {u}
  {
    var existing := IndexEntry(t, v);
    if existing != {} && existing != {u} {
      assert existing <= {u} ==> existing == {} || existing == {u};
      var u' :| u' in existing && u' !in {u};
      assert u' in vs && vs[u'] == v;
    }
    if !Free(vs, u, v) {
      var u' :| u' in vs && u' != u && vs[u'] == v;
      assert u' in existing;
      assert u' !in {u};
    }
  }

  // ---- all indexes of a cache ----

  predicate DistinctNames(specs: seq<IndexSpec>) {
    forall i, j :: 0 <= i < j < |specs| ==> NameOf(specs[i]) != NameOf(specs[j])
  }

  /** The table schema, the indexes and the hash function of a cache. */
  datatype Setup = Setup(ts: TableSchema, specs: seq<IndexSpec>, hash: seq<Value> -> int)

  ghost predicate ValidSetup(su: Setup) {
    DistinctNames(su.specs) && forall s :: s in su.specs ==> WellFormedSpec(su.ts, s)
  }

  type Rows = map<Uuid, Model>
  type Indexes = map<Name, IndexTable>

  ghost predicate Shape(su: Setup, cache: Rows, indexes: Indexes) {
    && ValidSetup(su)
    && (forall s :: s in su.specs ==> NameOf(s) in indexes)
    && (forall u :: u in cache ==> TypedModel(su.ts, cache[u]))
  }

  function IndexedBy(su: Setup, m: Model, s: IndexSpec): IndexValue
    requires TypedModel(su.ts, m) && WellFormedSpec(su.ts, s)
  {
    ValueFromIndex(su.hash, su.ts, m, s)
  }

  /** The value each cached row has in an index. */
  ghost function Held(su: Setup, cache: Rows, s: IndexSpec): Holdings
    requires WellFormedSpec(su.ts, s) && forall u :: u in cache ==> TypedModel(su.ts, cache[u])
  {
    map u | u in cache :: IndexedBy(su, cache[u], s)
  }

  /** Client indexes are exact, schema indexes are sound. */
  ghost predicate ValidCache(su: Setup, cache: Rows, indexes: Indexes) {
    Shape(su, cache, indexes) && forall s :: s in su.specs ==> KeptAt(su, cache, indexes, s)
  }

  ghost predicate KeptAt(su: Setup, cache: Rows, indexes: Indexes, s: IndexSpec)
    requires Shape(su, cache, indexes) && s in su.specs
  {
    Kept(s.kind, indexes[NameOf(s)], Held(su, cache, s))
  }

  ghost predicate CheckedAt(su: Setup, cache: Rows, indexes: Indexes, s: IndexSpec)
    requires Shape(su, cache, indexes) && s in su.specs
  {
    s.kind == SchemaIndex ==> IndexExact(indexes[NameOf(s)], Held(su, cache, s)) && Unique(Held(su, cache, s))
  }

  /** Schema indexes are exact and no two rows share a value of one. */
  ghost predicate CheckedCache(su: Setup, cache: Rows, indexes: Indexes) {
    Shape(su, cache, indexes) &&
    forall s :: s in su.specs ==> CheckedAt(su, cache, indexes, s)
  }

  /** Another row is in a schema index under the value of this row. */
  predicate Conflict(su: Setup, indexes: Indexes, s: IndexSpec, uuid: Uuid, m: Model)
    requires TypedModel(su.ts, m) && WellFormedSpec(su.ts, s) && NameOf(s) in indexes
  {
    var existing := IndexEntry(indexes[NameOf(s)], IndexedBy(su, m, s));
    s.kind == SchemaIndex && existing != {} && existing != {uuid}
  }

  predicate ConflictAt(su: Setup, indexes: Indexes, uuid: Uuid, m: Model, before: Option<Model>, s: IndexSpec)
    requires TypedModel(su.ts, m) && (before.Some? ==> TypedModel(su.ts, before.value))
    requires WellFormedSpec(su.ts, s) && NameOf(s) in indexes
  {
    (before.Some? ==> IndexedBy(su, before.value, s) != IndexedBy(su, m, s)) && Conflict(su, indexes, s, uuid, m)
  }

  ghost predicate Conflicting(su: Setup, indexes: Indexes, uuid: Uuid, m: Model, before: Option<Model>)
    requires TypedModel(su.ts, m) && (before.Some? ==> TypedModel(su.ts, before.value))
    requires ValidSetup(su) && forall s :: s in su.specs ==> NameOf(s) in indexes
  {
    exists s :: s in su.specs && ConflictAt(su, indexes, uuid, m, before, s)
  }

  /** No other row shares a schema index value with this row. */
  ghost predicate Alone(su: Setup, cache: Rows, uuid: Uuid, m: Model)
    requires ValidSetup(su) && TypedModel(su.ts, m) && forall u :: u in cache ==> TypedModel(su.ts, cache[u])
  {
    forall s :: s in su.specs && s.kind == SchemaIndex ==> Free(Held(su, cache, s), uuid, IndexedBy(su, m, s))
  }

  function AddedFor(su: Setup, indexes: Indexes, uuid: Uuid, m: Model, s: IndexSpec): IndexTable
    requires TypedModel(su.ts, m) && WellFormedSpec(su.ts, s) && NameOf(s) in indexes
  {
    Added(s.kind, indexes[NameOf(s)], IndexedBy(su, m, s), uuid)
  }

  function TakenFor(su: Setup, indexes: Indexes, uuid: Uuid, m: Model, s: IndexSpec): IndexTable
    requires TypedModel(su.ts, m) && WellFormedSpec(su.ts, s) && NameOf(s) in indexes
  {
    Taken(indexes[NameOf(s)], IndexedBy(su, m, s), uuid)
  }

  function ChangedFor(su: Setup, indexes: Indexes, uuid: Uuid, o: Model, m: Model, s: IndexSpec): IndexTable
    requires TypedModel(su.ts, o) && TypedModel(su.ts, m) && WellFormedSpec(su.ts, s) && NameOf(s) in indexes
  {
    var (v0, v) := (IndexedBy(su, o, s), IndexedBy(su, m, s));
    if v0 == v then indexes[NameOf(s)] else Superseded(s.kind, Added(s.kind, indexes[NameOf(s)], v, uuid), v0, uuid)
  }

  lemma HeldAfterWrite(su: Setup, cache: Rows, uuid: Uuid, m: Model, s: IndexSpec)
    requires WellFormedSpec(su.ts, s) && (forall u :: u in cache ==> TypedModel(su.ts, cache[u])) && TypedModel(su.ts, m)
    ensures Held(su, cache[uuid := m], s) == Held(su, cache, s)[uuid := IndexedBy(su, m, s)]
    ensures Held(su, cache - {uuid}, s) == Held(su, cache, s) - {uuid}
  {
  }

  lemma CreateKeepsAt(su: Setup, cache: Rows, indexes: Indexes, uuid: Uuid, m: Model, indexes': Indexes, s: IndexSpec)
    requires Shape(su, cache, indexes) && TypedModel(su.ts, m) && uuid !in cache && Shape(su, cache[uuid := m], indexes')
    requires s in su.specs && KeptAt(su, cache, indexes, s) && indexes'[NameOf(s)] == AddedFor(su, indexes, uuid, m, s)
    ensures KeptAt(su, cache[uuid := m], indexes', s)
    ensures CheckedAt(su, cache, indexes, s) && Alone(su, cache, uuid, m) ==> CheckedAt(su, cache[uuid := m], indexes', s)
  {
    HeldAfterWrite(su, cache, uuid, m, s);
    AddKeeps(s.kind, indexes[NameOf(s)], Held(su, cache, s), uuid, IndexedBy(su, m, s));
  }

  lemma CreateKeeps(su: Setup, cache: Rows, indexes: Indexes, uuid: Uuid, m: Model, indexes': Indexes)
    requires ValidCache(su, cache, indexes) && TypedModel(su.ts, m) && uuid !in cache
    requires forall s :: s in su.specs ==> NameOf(s) in indexes' && indexes'[NameOf(s)] == AddedFor(su, indexes, uuid, m, s)
    ensures ValidCache(su, cache[uuid := m], indexes')
    ensures CheckedCache(su, cache, indexes) && Alone(su, cache, uuid, m) ==> CheckedCache(su, cache[uuid := m], indexes')
  {
    assert Shape(su, cache[uuid := m], indexes');
    forall s | s in su.specs
      ensures KeptAt(su, cache[uuid := m], indexes', s)
      ensures CheckedAt(su, cache, indexes, s) && Alone(su, cache, uuid, m) ==> CheckedAt(su, cache[uuid := m], indexes', s)
    {
      CreateKeepsAt(su, cache, indexes, uuid, m, indexes', s);
    }
  }

  lemma DeleteKeepsAt(su: Setup, cache: Rows, indexes: Indexes, uuid: Uuid, indexes': Indexes, s: IndexSpec)
    requires Shape(su, cache, indexes) && uuid in cache && Shape(su, cache - {uuid}, indexes')
    requires s in su.specs && KeptAt(su, cache, indexes, s) && indexes'[NameOf(s)] == TakenFor(su, indexes, uuid, cache[uuid], s)
    ensures KeptAt(su, cache - {uuid}, indexes', s)
    ensures CheckedAt(su, cache, indexes, s) ==> CheckedAt(su, cache - {uuid}, indexes', s)
  {
    HeldAfterWrite(su, cache, uuid, cache[uuid], s);
    TakeKeeps(s.kind, indexes[NameOf(s)], Held(su, cache, s), uuid);
  }

  lemma DeleteKeeps(su: Setup, cache: Rows, indexes: Indexes, uuid: Uuid, indexes': Indexes)
    requires ValidCache(su, cache, indexes) && uuid in cache
    requires forall s :: s in su.specs ==> NameOf(s) in indexes' && indexes'[NameOf(s)] == TakenFor(su, indexes, uuid, cache[uuid], s)
    ensures ValidCache(su, cache - {uuid}, indexes')
    ensures CheckedCache(su, cache, indexes) ==> CheckedCache(su, cache - {uuid}, indexes')
  {
    assert Shape(su, cache - {uuid}, indexes');
    forall s | s in su.specs
      ensures KeptAt(su, cache - {uuid}, indexes', s)
      ensures CheckedAt(su, cache, indexes, s) ==> CheckedAt(su, cache - {uuid}, indexes', s)
    {
      DeleteKeepsAt(su, cache, indexes, uuid, indexes', s);
    }
  }

  lemma UpdateKeepsAt(su: Setup, cache: Rows, indexes: Indexes, uuid: Uuid, m: Model, indexes': Indexes, s: IndexSpec)
    requires Shape(su, cache, indexes) && TypedModel(su.ts, m) && uuid in cache && Shape(su, cache[uuid := m], indexes')
    requires s in su.specs && KeptAt(su, cache, indexes, s) && indexes'[NameOf(s)] == ChangedFor(su, indexes, uuid, cache[uuid], m, s)
    ensures KeptAt(su, cache[uuid := m], indexes', s)
    ensures CheckedAt(su, cache, indexes, s) && Alone(su, cache, uuid, m) ==> CheckedAt(su, cache[uuid := m], indexes', s)
  {
    var (vs, v) := (Held(su, cache, s), IndexedBy(su, m, s));
    HeldAfterWrite(su, cache, uuid, m, s);
    if vs[uuid] == v {
      assert vs[uuid := v] == vs;
    } else {
      ChangeKeeps(s.kind, indexes[NameOf(s)], vs, uuid, v);
    }
  }

  lemma UpdateKeeps(su: Setup, cache: Rows, indexes: Indexes, uuid: Uuid, m: Model, indexes': Indexes)
    requires ValidCache(su, cache, indexes) && TypedModel(su.ts, m) && uuid in cache
    requires forall s :: s in su.specs ==>
      NameOf(s) in indexes' && indexes'[NameOf(s)] == ChangedFor(su, indexes, uuid, cache[uuid], m, s)
    ensures ValidCache(su, cache[uuid := m], indexes')
    ensures CheckedCache(su, cache, indexes) && Alone(su, cache, uuid, m) ==> CheckedCache(su, cache[uuid := m], indexes')
  {
    assert Shape(su, cache[uuid := m], indexes');
    forall s | s in su.specs
      ensures KeptAt(su, cache[uuid := m], indexes', s)
      ensures CheckedAt(su, cache, indexes, s) && Alone(su, cache, uuid, m) ==> CheckedAt(su, cache[uuid := m], indexes', s)
    {
      UpdateKeepsAt(su, cache, indexes, uuid, m, indexes', s);
    }
  }

  /** In a checked cache, the check for conflicts finds exactly the rows that would share a
      schema index value. */
  lemma NoConflictIsAlone(su: Setup, cache: Rows, indexes: Indexes, uuid: Uuid, m: Model)
    requires CheckedCache(su, cache, indexes) && TypedModel(su.ts, m)
    requires !Conflicting(su, indexes, uuid, m, if uuid in cache then Some(cache[uuid]) else None)
    ensures Alone(su, cache, uuid, m)
  {
    forall s | s in su.specs && s.kind == SchemaIndex
      ensures Free(Held(su, cache, s), uuid, IndexedBy(su, m, s))
    {
      assert CheckedAt(su, cache, indexes, s);
      assert !ConflictAt(su, indexes, uuid, m, if uuid in cache then Some(cache[uuid]) else None, s);
      ConflictIsShared(indexes[NameOf(s)], Held(su, cache, s), uuid, IndexedBy(su, m, s));
      if uuid in cache && IndexedBy(su, cache[uuid], s) == IndexedBy(su, m, s) {
        assert Held(su, cache, s)[uuid] == IndexedBy(su, m, s);
      }
    }
  }

  // ---- what it is to share an index value ----

  lemma {:induction false} SameHashedValues(ts: TableSchema, m: Model, n: Model, ks: seq<ColumnKey>)
    requires TypedModel(ts, m) && TypedModel(ts, n)
    requires forall k :: k in ks ==> k.column in ts && (k.key.Some? ==> ts[k.column].kind.MapKind?)
    requires forall k :: k in ks ==> KeyValue(ts, m, k) == KeyValue(ts, n, k)
    ensures HashedValues(ts, m, ks) == HashedValues(ts, n, ks)
  {
    if ks == [] {
    } else {
      assert ks[0] in ks;
      SameHashedValues(ts, m, n, ks[1..]);
    }
  }

  /** A difference in one value shows in the hashed list, as long as the same optionals are unset. */
  lemma {:induction false} DifferentHashedValues(ts: TableSchema, m: Model, n: Model, ks: seq<ColumnKey>, i: nat)
    requires TypedModel(ts, m) && TypedModel(ts, n)
    requires forall k :: k in ks ==> k.column in ts && (k.key.Some? ==> ts[k.column].kind.MapKind?)
    requires forall k :: k in ks ==> (KeyValue(ts, m, k) == OptValue(None) <==> KeyValue(ts, n, k) == OptValue(None))
    requires i < |ks| && KeyValue(ts, m, ks[i]) != KeyValue(ts, n, ks[i])
    ensures HashedValues(ts, m, ks) != HashedValues(ts, n, ks)
  {
    assert ks[0] in ks;
    var (hm, hn) := (HashedValues(ts, m, ks[1..]), HashedValues(ts, n, ks[1..]));
    var (vm, vn) := (KeyValue(ts, m, ks[0]), KeyValue(ts, n, ks[0]));
    if i > 0 {
      assert ks[1..][i - 1] == ks[i];
      DifferentHashedValues(ts, m, n, ks[1..], i - 1);
    }
    if vm != OptValue(None) {
      assert HashedValues(ts, m, ks) == [vm] + hm && HashedValues(ts, n, ks) == [vn] + hn;
      assert [vm] + hm == [vn] + hn ==> vm == vn && hm == hn by {
        assert ([vm] + hm)[0] == vm && ([vn] + hn)[0] == vn;
        assert ([vm] + hm)[1..] == hm && ([vn] + hn)[1..] == hn;
      }
    } else {
      assert HashedValues(ts, m, ks) == hm && HashedValues(ts, n, ks) == hn;
    }
  }

  /** The hash tells the index values of two rows apart. */
  predicate NoCollision(su: Setup, m: Model, n: Model, s: IndexSpec)
    requires TypedModel(su.ts, m) && TypedModel(su.ts, n) && WellFormedSpec(su.ts, s)
  {
    su.hash(HashedValues(su.ts, m, s.columns)) == su.hash(HashedValues(su.ts, n, s.columns)) ==>
      HashedValues(su.ts, m, s.columns) == HashedValues(su.ts, n, s.columns)
  }

  /** The rows agree on a column key: on the column, or on the value at the key, where a missing
      one counts as zero. */
  predicate SameAt(ts: TableSchema, m: Model, n: Model, k: ColumnKey)
    requires TypedModel(ts, m) && TypedModel(ts, n) && k.column in ts && (k.key.Some? ==> ts[k.column].kind.MapKind?)
  {
    var (v, w) := (m[k.column], n[k.column]);
    assert HasKind(v, ts[k.column].kind) && HasKind(w, ts[k.column].kind);
    if k.key.None? then v == w
    else
      var (key, zero) := (k.key.value, ZeroAtom(ts[k.column].kind.v));
      if key in v.m && key in w.m then v.m[key] == w.m[key]
      else if key in v.m then v.m[key] == zero
      else key in w.m ==> w.m[key] == zero
  }

  /** The column is unset in one of the rows only. */
  predicate UnsetInOne(m: Model, n: Model, k: ColumnKey)
    requires k.column in m && k.column in n
  {
    k.key.None? && ((m[k.column] == OptValue(None)) != (n[k.column] == OptValue(None)))
  }

  lemma SameKeyValue(ts: TableSchema, m: Model, n: Model, k: ColumnKey)
    requires TypedModel(ts, m) && TypedModel(ts, n) && k.column in ts && (k.key.Some? ==> ts[k.column].kind.MapKind?)
    ensures KeyValue(ts, m, k) == KeyValue(ts, n, k) <==> SameAt(ts, m, n, k)
    ensures !UnsetInOne(m, n, k) ==> (KeyValue(ts, m, k) == OptValue(None) <==> KeyValue(ts, n, k) == OptValue(None))
  {
    assert HasKind(m[k.column], ts[k.column].kind) && HasKind(n[k.column], ts[k.column].kind);
  }

  /** Rows share an index value when they agree on every column key of the index; and only then,
      unless the hash of several columns confuses them or an optional column is set in one of them
      only, whose place the hashed list does not keep. */
  lemma SharedValue(su: Setup, m: Model, n: Model, s: IndexSpec)
    requires TypedModel(su.ts, m) && TypedModel(su.ts, n) && WellFormedSpec(su.ts, s)
    ensures (forall k :: k in s.columns ==> SameAt(su.ts, m, n, k)) ==> IndexedBy(su, m, s) == IndexedBy(su, n, s)
    ensures |s.columns| == 1 || (NoCollision(su, m, n, s) && forall k :: k in s.columns ==> !UnsetInOne(m, n, k)) ==>
      IndexedBy(su, m, s) == IndexedBy(su, n, s) ==> forall k :: k in s.columns ==> SameAt(su.ts, m, n, k)
  {
    forall k | k in s.columns
      ensures KeyValue(su.ts, m, k) == KeyValue(su.ts, n, k) <==> SameAt(su.ts, m, n, k)
      ensures !UnsetInOne(m, n, k) ==> (KeyValue(su.ts, m, k) == OptValue(None) <==> KeyValue(su.ts, n, k) == OptValue(None))
    {
      SameKeyValue(su.ts, m, n, k);
    }
    if forall k :: k in s.columns ==> SameAt(su.ts, m, n, k) {
      SameHashedValues(su.ts, m, n, s.columns);
    } else if |s.columns| > 1 && forall k :: k in s.columns ==> !UnsetInOne(m, n, k) {
      var i :| 0 <= i < |s.columns| && !SameAt(su.ts, m, n, s.columns[i]);
      assert s.columns[i] in s.columns;
      DifferentHashedValues(su.ts, m, n, s.columns, i);
    }
  }

  /** The place of an unset optional is not kept: whatever the hash, two rows that differ in both
      columns of an index share its value. */
  lemma ShiftedOptional(su: Setup, m: Model, n: Model, x: Column, y: Column, a: Atom)
    requires TypedModel(su.ts, m) && TypedModel(su.ts, n) && x in su.ts && y in su.ts
    requires m[x] == OptValue(Some(a)) && m[y] == OptValue(None) && n[x] == OptValue(None) && n[y] == OptValue(Some(a))
    ensures
      var s := IndexSpec([ColumnKey(x, None), ColumnKey(y, None)], SchemaIndex);
      && IndexedBy(su, m, s) == IndexedBy(su, n, s)
      && !SameAt(su.ts, m, n, s.columns[0]) && !SameAt(su.ts, m, n, s.columns[1])
  {
    HashedPair(su.ts, m, ColumnKey(x, None), ColumnKey(y, None));
    HashedPair(su.ts, n, ColumnKey(x, None), ColumnKey(y, None));
    assert [AtomValue(a)] + [] == [] + [AtomValue(a)];
  }

  lemma HashedPair(ts: TableSchema, m: Model, k: ColumnKey, l: ColumnKey)
    requires TypedModel(ts, m) && k.column in ts && l.column in ts && k.key.None? && l.key.None?
    ensures HashedValues(ts, m, [k, l]) == Unless(KeyValue(ts, m, k)) + Unless(KeyValue(ts, m, l))
  {
    assert [k, l][1..] == [l] && [l][1..] == [];
    assert HashedValues(ts, m, [l]) == Unless(KeyValue(ts, m, l)) + [];
  }

  /** The value, unless it is an unset optional. */
  function Unless(v: Value): seq<Value> {
    if v == OptValue(None) then [] else [v]
  }

  /** Another cached row has the same value in a schema index. */
  ghost predicate Occupied(su: Setup, cache: Rows, uuid: Uuid, m: Model)
    requires ValidSetup(su) && TypedModel(su.ts, m) && forall u :: u in cache ==> TypedModel(su.ts, cache[u])
  {
    exists u, s :: u in cache && u != uuid && s in su.specs && s.kind == SchemaIndex && IndexedBy(su, cache[u], s) == IndexedBy(su, m, s)
  }

  /** The check for conflicts, in any cache: a schema index has another row under the value of the
      row, which is a new one; a row that keeps its values is never refused. */
  lemma ConflictFound(su: Setup, cache: Rows, indexes: Indexes, uuid: Uuid, m: Model, before: Option<Model>)
    requires Shape(su, cache, indexes) && TypedModel(su.ts, m) && (before.Some? ==> TypedModel(su.ts, before.value))
    ensures Conflicting(su, indexes, uuid, m, before) <==>
      exists s, u :: s in su.specs && s.kind == SchemaIndex && u != uuid && u in IndexEntry(indexes[NameOf(s)], IndexedBy(su, m, s)) &&
        (before.Some? ==> IndexedBy(su, before.value, s) != IndexedBy(su, m, s))
  {
    forall s | s in su.specs
      ensures ConflictAt(su, indexes, uuid, m, before, s) <==>
        s.kind == SchemaIndex && (exists u :: u != uuid && u in IndexEntry(indexes[NameOf(s)], IndexedBy(su, m, s))) &&
        (before.Some? ==> IndexedBy(su, before.value, s) != IndexedBy(su, m, s))
    {
      AnotherIn(IndexEntry(indexes[NameOf(s)], IndexedBy(su, m, s)), uuid);
    }
  }

  lemma AnotherIn(us: set<Uuid>, uuid: Uuid)
    ensures us != {} && us != {uuid} <==> exists u :: u != uuid && u in us
  {
    if us != {} && us != {uuid} {
      assert us <= {uuid} ==> us == {} || us == {uuid};
      var u :| u in us && u !in {uuid};
    }
  }

  /** In a checked cache, the check for conflicts finds exactly that another row has the same value
      in a schema index. */
  lemma ConflictMeans(su: Setup, cache: Rows, indexes: Indexes, uuid: Uuid, m: Model)
    requires CheckedCache(su, cache, indexes) && TypedModel(su.ts, m)
    ensures Conflicting(su, indexes, uuid, m, if uuid in cache then Some(cache[uuid]) else None) <==> Occupied(su, cache, uuid, m)
  {
    var before := if uuid in cache then Some(cache[uuid]) else None;
    if Conflicting(su, indexes, uuid, m, before) {
      var s :| s in su.specs && ConflictAt(su, indexes, uuid, m, before, s);
      assert CheckedAt(su, cache, indexes, s);
      ConflictIsShared(indexes[NameOf(s)], Held(su, cache, s), uuid, IndexedBy(su, m, s));
      var u :| u in Held(su, cache, s) && u != uuid && Held(su, cache, s)[u] == IndexedBy(su, m, s);
      assert IndexedBy(su, cache[u], s) == IndexedBy(su, m, s);
    } else {
      NoConflictIsAlone(su, cache, indexes, uuid, m);
      forall u, s | u in cache && u != uuid && s in su.specs && s.kind == SchemaIndex
        ensures IndexedBy(su, cache[u], s) != IndexedBy(su, m, s)
      {
        assert Free(Held(su, cache, s), uuid, IndexedBy(su, m, s));
        assert Held(su, cache, s)[u] == IndexedBy(su, cache[u], s);
      }
    }
  }

  // ---- the cache ----

  class RowCache {
    const su: Setup

    var cache: Rows
    var indexes: Indexes

    constructor (su: Setup)
      requires ValidSetup(su)
      ensures this.su == su && cache == map[]
      ensures Valid() && Checked()
    {
      this.su := su;
      cache := map[];
      var names := set s | s in su.specs :: NameOf(s);
      indexes := map n | n in names :: map[];
    }

    ghost predicate Valid()
      reads this
    {
      ValidCache(su, cache, indexes)
    }

    ghost predicate Checked()
      reads this
    {
      CheckedCache(su, cache, indexes)
    }

    /** `Create`: fails exactly when the row exists or a checked schema index has another row
        under one of its values. */
    method Create(uuid: Uuid, m: Model, checkIndexes: bool) returns (e: Option<CacheError>)
      requires Valid() && TypedModel(su.ts, m)
      modifies this
      ensures Valid()
      ensures e.Some? <==>
        uuid in old(cache) || (checkIndexes && Conflicting(su, old(indexes), uuid, m, None))
      ensures old(Checked()) && checkIndexes ==> (e.Some? <==> uuid in old(cache) || Occupied(su, old(cache), uuid, m))
      ensures e.Some? ==> cache == old(cache) && indexes == old(indexes)
      ensures e.None? ==> cache == old(cache)[uuid := m]
      ensures e.None? ==> forall s :: s in su.specs ==> indexes[NameOf(s)] == AddedFor(su, old(indexes), uuid, m, s)
      ensures e.None? && old(Checked()) && (checkIndexes || Alone(su, old(cache), uuid, m)) ==> Checked()
    {
      if uuid in cache {
        return Some(Inconsistent);
      }
      if checkIndexes {
        if Checked() {
          ConflictMeans(su, cache, indexes, uuid, m);
        }
        var conflict := HasConflict(uuid, m, None);
        if conflict {
          return Some(IndexExists);
        }
      }
      ghost var before := indexes;
      WriteAdded(uuid, m);
      CreateKeeps(su, cache, before, uuid, m, indexes);
      if checkIndexes && CheckedCache(su, cache, before) {
        NoConflictIsAlone(su, cache, before, uuid, m);
      }
      cache := cache[uuid := m];
      return None;
    }

    /** Whether a schema index whose value changes has another row under the new value. */
    method HasConflict(uuid: Uuid, m: Model, before: Option<Model>) returns (found: bool)
      requires Shape(su, cache, indexes) && TypedModel(su.ts, m) && (before.Some? ==> TypedModel(su.ts, before.value))
      ensures found <==> Conflicting(su, indexes, uuid, m, before)
    {
      for i := 0 to |su.specs|
        invariant forall j :: 0 <= j < i ==> !ConflictAt(su, indexes, uuid, m, before, su.specs[j])
      {
        if ConflictAt(su, indexes, uuid, m, before, su.specs[i]) {
          return true;
        }
      }
      return false;
    }

    method WriteAdded(uuid: Uuid, m: Model)
      requires Shape(su, cache, indexes) && TypedModel(su.ts, m)
      modifies this`indexes
      ensures forall s :: s in su.specs ==>
        NameOf(s) in indexes && indexes[NameOf(s)] == AddedFor(su, old(indexes), uuid, m, s)
    {
      for i := 0 to |su.specs|
        invariant forall s :: s in su.specs ==> NameOf(s) in indexes
        invariant forall j :: 0 <= j < |su.specs| ==>
          indexes[NameOf(su.specs[j])] == (if j < i then AddedFor(su, old(indexes), uuid, m, su.specs[j]) else old(indexes)[NameOf(su.specs[j])])
      {
        var s := su.specs[i];
        indexes := indexes[NameOf(s) := Added(s.kind, indexes[NameOf(s)], IndexedBy(su, m, s), uuid)];
      }
    }

    /** `Update`: fails exactly when the row does not exist or a checked schema index has another
        row under one of its new values. */
    method Update(uuid: Uuid, m: Model, checkIndexes: bool) returns (r: Result<Model, CacheError>)
      requires Valid() && TypedModel(su.ts, m)
      modifies this
      ensures Valid()
      ensures r.Err? <==>
        uuid !in old(cache) || (checkIndexes && Conflicting(su, old(indexes), uuid, m, Some(old(cache)[uuid])))
      ensures old(Checked()) && checkIndexes ==> (r.Err? <==> uuid !in old(cache) || Occupied(su, old(cache), uuid, m))
      ensures r.Err? ==> cache == old(cache) && indexes == old(indexes)
      ensures r.Ok? ==> r.value == old(cache)[uuid] && cache == old(cache)[uuid := m]
      ensures r.Ok? && old(Checked()) && (checkIndexes || Alone(su, old(cache), uuid, m)) ==> Checked()
    {
      if uuid !in cache {
        return Err(Inconsistent);
      }
      var oldRow := cache[uuid];
      if checkIndexes {
        if Checked() {
          ConflictMeans(su, cache, indexes, uuid, m);
        }
        var conflict := HasConflict(uuid, m, Some(oldRow));
        if conflict {
          return Err(IndexExists);
        }
      }
      ghost var before := indexes;
      WriteChanged(uuid, oldRow, m);
      UpdateKeeps(su, cache, before, uuid, m, indexes);
      if checkIndexes && CheckedCache(su, cache, before) {
        NoConflictIsAlone(su, cache, before, uuid, m);
      }
      cache := cache[uuid := m];
      return Ok(oldRow);
    }

    method WriteChanged(uuid: Uuid, o: Model, m: Model)
      requires Shape(su, cache, indexes) && TypedModel(su.ts, m) && TypedModel(su.ts, o)
      modifies this`indexes
      ensures forall s :: s in su.specs ==>
        NameOf(s) in indexes && indexes[NameOf(s)] == ChangedFor(su, old(indexes), uuid, o, m, s)
    {
      for i := 0 to |su.specs|
        invariant forall s :: s in su.specs ==> NameOf(s) in indexes
        invariant forall j :: 0 <= j < |su.specs| ==>
          indexes[NameOf(su.specs[j])] == (if j < i then ChangedFor(su, old(indexes), uuid, o, m, su.specs[j]) else old(indexes)[NameOf(su.specs[j])])
      {
        var s := su.specs[i];
        var n := NameOf(s);
        var (v0, v) := (IndexedBy(su, o, s), IndexedBy(su, m, s));
        if v0 != v {
          var added := Added(s.kind, indexes[n], v, uuid);
          indexes := indexes[n := Superseded(s.kind, added, v0, uuid)];
        }
      }
    }

    /** `Delete`: fails exactly when the row does not exist. */
    method Delete(uuid: Uuid) returns (e: Option<CacheError>)
      requires Valid()
      modifies this
      ensures Valid()
      ensures e.Some? <==> uuid !in old(cache)
      ensures e.Some? ==> cache == old(cache) && indexes == old(indexes)
      ensures e.None? ==> cache == old(cache) - {uuid}
      ensures old(Checked()) ==> Checked()
    {
      if uuid !in cache {
        return Some(Inconsistent);
      }
      ghost var before := indexes;
      WriteTaken(uuid, cache[uuid]);
      DeleteKeeps(su, cache, before, uuid, indexes);
      cache := cache - {uuid};
      return None;
    }

    method WriteTaken(uuid: Uuid, o: Model)
      requires Shape(su, cache, indexes) && TypedModel(su.ts, o)
      modifies this`indexes
      ensures forall s :: s in su.specs ==>
        NameOf(s) in indexes && indexes[NameOf(s)] == TakenFor(su, old(indexes), uuid, o, s)
    {
      for i := 0 to |su.specs|
        invariant forall s :: s in su.specs ==> NameOf(s) in indexes
        invariant forall j :: 0 <= j < |su.specs| ==>
          indexes[NameOf(su.specs[j])] == (if j < i then TakenFor(su, old(indexes), uuid, o, su.specs[j]) else old(indexes)[NameOf(su.specs[j])])
      {
        var s := su.specs[i];
        indexes := indexes[NameOf(s) := Taken(indexes[NameOf(s)], IndexedBy(su, o, s), uuid)];
      }
    }
  }
}
