/** The reverse reference index (database/references.go) and the changes a row update makes to
    it (updates/references.go).  The rows a reference is made from are a duplicate-free slice
    in the source and a set here. */
module References {
  import opened Values
  import opened Difference
  import opened Merge

  /** Where in the schema a reference occurs. */
  datatype Spec = Spec(toTable: Table, fromTable: Table, fromColumn: Column, fromValue: bool)

  /** For each referenced row, the rows that refer to it. */
  type Reference = map<Uuid, set<Uuid>>

  type Index = map<Spec, Reference>

  predicate Has(rs: Index, s: Spec, to: Uuid) {
    s in rs && to in rs[s]
  }

  function From(rs: Index, s: Spec, to: Uuid): set<Uuid> {
    if Has(rs, s, to) then rs[s][to] else {}
  }

  /** No location and no row is kept without references. */
  ghost predicate NoDangling(rs: Index) {
    (forall s :: s in rs ==> rs[s] != map[]) && (forall s, to :: Has(rs, s, to) ==> rs[s][to] != {})
  }

  ghost predicate SameExcept(rs: Index, rs': Index, s: Spec, to: Uuid) {
    forall s', to' :: s' != s || to' != to ==>
      (Has(rs', s', to') <==> Has(rs, s', to')) && From(rs', s', to') == From(rs, s', to')
  }

  // ---- database/references.go ----

  /** The references to one row. */
  method GetReferences(rs: Index, table: Table, uuid: Uuid) returns (refs: Index)
    ensures forall s, to :: Has(refs, s, to) <==> s.toTable == table && to == uuid && Has(rs, s, to)
    ensures forall s, to :: Has(refs, s, to) ==> From(refs, s, to) == From(rs, s, to)
  {
    refs := map[];
    var todo := rs.Keys;
    while todo != {}
      invariant todo <= rs.Keys
      invariant forall s :: s in refs <==> s in rs && s !in todo && s.toTable == table && uuid in rs[s]
      invariant forall s :: s in refs ==> refs[s] == map[uuid := rs[s][uuid]]
      decreases todo
    {
      var s :| s in todo;
      todo := todo - {s};
      if s.toTable == table && uuid in rs[s] {
        refs := refs[s := map[uuid := rs[s][uuid]]];
      }
    }
  }

  /** Replace the references to a row at a location, cleaning up what is left without any. */
  function UpdateReference(rs: Index, s: Spec, to: Uuid, from: set<Uuid>): Index {
    if s !in rs && from != {} then rs[s := map[to := from]]
    else if from != {} then rs[s := rs[s][to := from]]
    else if s in rs then
      var rest := rs[s] - {to};
      if rest == map[] then rs - {s} else rs[s := rest]
    else rs
  }

  lemma UpdatedReference(rs: Index, s: Spec, to: Uuid, from: set<Uuid>)
    ensures var rs' := UpdateReference(rs, s, to, from);
            && From(rs', s, to) == from
            && (Has(rs', s, to) <==> from != {})
            && SameExcept(rs, rs', s, to)
  {
    if s in rs {
      assert (rs[s] - {to}).Keys == rs[s].Keys - {to};
    }
  }

  lemma UpdateKeepsNoDangling(rs: Index, s: Spec, to: Uuid, from: set<Uuid>)
    requires NoDangling(rs)
    ensures NoDangling(UpdateReference(rs, s, to, from))
  {
    var rs' := UpdateReference(rs, s, to, from);
    UpdatedReference(rs, s, to, from);
    forall s', to' | Has(rs', s', to')
      ensures rs'[s'][to'] != {}
    {
      assert rs'[s'][to'] == From(rs', s', to');
      if s' != s || to' != to {
        assert Has(rs, s', to');
      }
    }
    forall s' | s' in rs'
      ensures rs'[s'] != map[]
    {
      if s' == s {
        assert from != {} ==> to in rs'[s];
      } else {
        assert rs'[s'] == rs[s'];
      }
    }
  }

  /** The references named by `other` are replaced, all others kept. */
  method UpdateReferences(rs: Index, other: Index) returns (r: Index)
    ensures forall s, to :: From(r, s, to) == if Has(other, s, to) then other[s][to] else From(rs, s, to)
    ensures forall s, to :: Has(r, s, to) <==> if Has(other, s, to) then other[s][to] != {} else Has(rs, s, to)
    ensures NoDangling(rs) ==> NoDangling(r)
  {
    r := rs;
    var specs := other.Keys;
    while specs != {}
      invariant specs <= other.Keys
      invariant forall s, to ::
        From(r, s, to) == (if s !in specs && Has(other, s, to) then other[s][to] else From(rs, s, to))
      invariant forall s, to :: Has(r, s, to) <==>
        if s !in specs && Has(other, s, to) then other[s][to] != {} else Has(rs, s, to)
      invariant NoDangling(rs) ==> NoDangling(r)
      decreases specs
    {
      var s :| s in specs;
      var r' := UpdateLocation(r, s, other[s]);
      specs := specs - {s};
      r := r';
    }
  }

  method UpdateLocation(rs: Index, s: Spec, other: Reference) returns (r: Index)
    ensures forall s', to :: From(r, s', to) == if s' == s && to in other then other[to] else From(rs, s', to)
    ensures forall s', to :: Has(r, s', to) <==> if s' == s && to in other then other[to] != {} else Has(rs, s', to)
    ensures NoDangling(rs) ==> NoDangling(r)
  {
    r := rs;
    var todo := other.Keys;
    while todo != {}
      invariant todo <= other.Keys
      invariant forall s', to ::
        From(r, s', to) == (if s' == s && to in other && to !in todo then other[to] else From(rs, s', to))
      invariant forall s', to :: Has(r, s', to) <==>
        if s' == s && to in other && to !in todo then other[to] != {} else Has(rs, s', to)
      invariant NoDangling(rs) ==> NoDangling(r)
      decreases todo
    {
      var to :| to in todo;
      UpdatedReference(r, s, to, other[to]);
      if NoDangling(r) {
        UpdateKeepsNoDangling(r, s, to, other[to]);
      }
      r := UpdateReference(r, s, to, other[to]);
      todo := todo - {to};
    }
  }

  // ---- updates/references.go ----

  /** Toggle the references of `b` in `a`. */
  method ApplyReferenceModifications(a: Index, b: Index) returns (r: Index)
    ensures forall s, to :: From(r, s, to) == SymDiff(From(a, s, to), From(b, s, to))
    ensures forall s, to :: Has(r, s, to) <==> Has(a, s, to) || Has(b, s, to)
  {
    r := a;
    var specs := b.Keys;
    while specs != {}
      invariant specs <= b.Keys
      invariant forall s, to ::
        From(r, s, to) == (if s in specs then From(a, s, to) else SymDiff(From(a, s, to), From(b, s, to)))
      invariant forall s, to :: Has(r, s, to) <==> Has(a, s, to) || (s !in specs && Has(b, s, to))
      decreases specs
    {
      var s :| s in specs;
      var r' := ModifyLocation(r, s, b[s]);
      specs := specs - {s};
      r := r';
    }
  }

  method ModifyLocation(a: Index, s: Spec, b: Reference) returns (r: Index)
    ensures forall s', to ::
      From(r, s', to) == (if s' == s && to in b then SymDiff(From(a, s', to), b[to]) else From(a, s', to))
    ensures forall s', to :: Has(r, s', to) <==> Has(a, s', to) || (s' == s && to in b)
  {
    r := a;
    var todo := b.Keys;
    while todo != {}
      invariant todo <= b.Keys
      invariant forall s', to ::
        From(r, s', to) == (if s' == s && to in b && to !in todo then SymDiff(From(a, s', to), b[to]) else From(a, s', to))
      invariant forall s', to :: Has(r, s', to) <==> Has(a, s', to) || (s' == s && to in b && to !in todo)
      decreases todo
    {
      var to :| to in todo;
      todo := todo - {to};
      ghost var before := r;
      if s in r {
        if to in r[s] {
          r := r[s := r[s][to := SymDiff(r[s][to], b[to])]];
        } else {
          r := r[s := r[s][to := b[to]]];
        }
      } else {
        r := r[s := map[to := b[to]]];
      }
      assert SymDiff({}, b[to]) == b[to];
      assert From(r, s, to) == SymDiff(From(a, s, to), b[to]);
      assert SameExcept(before, r, s, to);
    }
  }

  /** The rows a column value refers to. */
  function Targets(v: Value): set<Uuid> {
    match v
    case AtomValue(UuidAtom(u)) => {u}
    case SetValue(s) => UuidsOf(s)
    case _ => {}
  }

  function UuidsOf(s: set<Atom>): set<Uuid> {
    set a | a in s && a.UuidAtom? :: a.u
  }

  /** The rows whose reference from a column changes: both the old and the new target of an
      atom, and the values of a set difference, or the old values when that is empty. */
  function ModifiedTargets(change: Value, before: Option<Value>): set<Uuid> {
    match change
    case AtomValue(UuidAtom(u)) =>
      {u} + (if before.Some? then Targets(before.value) - {""} else {})
    case SetValue(s) =>
      if s == {} && before.Some? then Targets(before.value) else UuidsOf(s)
    case _ => {}
  }

  /** Modifications of the index from one column of a change row. */
  function ColumnModifications(table: Table, cs: ColumnSchema, uuid: Uuid, c: Column, change: Value, before: Option<Value>): Index {
    var targets := ModifiedTargets(change, before);
    if cs.refTable == "" || targets == {} then map[]
    else map[Spec(cs.refTable, table, c, false) := map to | to in targets :: {uuid}]
  }

  /** Modifications of the index from a change row, column by column. */
  method RowModifications(ts: TableSchema, table: Table, uuid: Uuid, change: Row, before: Option<Row>) returns (refs: Index)
    requires change.Keys <= ts.Keys
    ensures forall s, to :: From(refs, s, to) == if ModifiedAt(ts, table, change, before, s, to) then {uuid} else {}
    ensures forall s, to :: Has(refs, s, to) <==> ModifiedAt(ts, table, change, before, s, to)
  {
    refs := map[];
    var todo := change.Keys;
    while todo != {}
      invariant todo <= change.Keys
      invariant forall s, to :: Has(refs, s, to) <==>
        s.fromColumn !in todo && ModifiedAt(ts, table, change, before, s, to)
      invariant forall s, to :: Has(refs, s, to) ==> refs[s][to] == {uuid}
      decreases todo
    {
      var c :| c in todo;
      var oldValue := if before.Some? then At(before.value, c) else None;
      var crefs := ColumnModifications(table, ts[c], uuid, c, change[c], oldValue);
      assert forall s, to :: Has(crefs, s, to) <==> s.fromColumn == c && ModifiedAt(ts, table, change, before, s, to);
      assert forall s, to :: Has(crefs, s, to) ==> crefs[s][to] == {uuid};
      var refs' := UpdateReferences(refs, crefs);
      forall s, to
        ensures Has(refs', s, to) <==> s.fromColumn !in todo - {c} && ModifiedAt(ts, table, change, before, s, to)
        ensures Has(refs', s, to) ==> refs'[s][to] == {uuid}
      {
        assert Has(refs', s, to) ==> refs'[s][to] == From(refs', s, to);
        assert Has(refs, s, to) ==> From(refs, s, to) == {uuid};
      }
      refs := refs';
      todo := todo - {c};
    }
  }

  /** The change row modifies the reference to `to` at location `s`. */
  predicate ModifiedAt(ts: TableSchema, table: Table, change: Row, before: Option<Row>, s: Spec, to: Uuid)
    requires change.Keys <= ts.Keys
  {
    && s.fromColumn in change && ts[s.fromColumn].refTable != ""
    && s == Spec(ts[s.fromColumn].refTable, table, s.fromColumn, false)
    && to in ModifiedTargets(change[s.fromColumn], if before.Some? then At(before.value, s.fromColumn) else None)
  }

  // ---- references as edges between rows ----

  datatype Schema = Schema(tables: map<Table, TableSchema>, roots: set<Table>)

  /** Every table is part of the root set when none is declared to be. */
  predicate IsRoot(schema: Schema, t: Table) {
    t in schema.roots || schema.roots == {}
  }

  datatype Entry = Entry(table: Table, model: Model)

  /** The rows of a database.  A UUID names a row of at most one table. */
  type World = map<Uuid, Entry>

  datatype Edge = Edge(spec: Spec, to: Uuid, from: Uuid)

  /** References are held by set columns of UUIDs and by required UUID columns. */
  predicate RefSchema(schema: Schema) {
    forall t, c :: t in schema.tables && c in schema.tables[t] ==>
      schema.tables[t][c].refTable != "" ==>
        schema.tables[t][c].kind == AtomKind(UuidType) || (schema.tables[t][c].kind.SetKind? && schema.tables[t][c].kind.t == UuidType)
  }

  /** A row of the database: well typed, normal, with a value in every required reference. */
  predicate ValidEntry(schema: Schema, x: Entry) {
    && x.table in schema.tables
    && ValidModel(schema.tables[x.table], x.model)
    && (forall c :: c in x.model ==>
          var cs := schema.tables[x.table][c];
          cs.refTable != "" && cs.kind.AtomKind? ==> !IsDefault(x.model[c]))
  }

  predicate IsLocation(schema: Schema, s: Spec) {
    && s.fromTable in schema.tables && s.fromColumn in schema.tables[s.fromTable]
    && !s.fromValue
    && schema.tables[s.fromTable][s.fromColumn].refTable == s.toTable != ""
  }

  predicate IsStrong(schema: Schema, s: Spec) {
    IsLocation(schema, s) && schema.tables[s.fromTable][s.fromColumn].strong
  }

  predicate IsWeak(schema: Schema, s: Spec) {
    IsLocation(schema, s) && !schema.tables[s.fromTable][s.fromColumn].strong
  }

  /** A row of a table refers to row `e.to` from location `e.spec`. */
  predicate RowRefers(schema: Schema, x: Entry, e: Edge) {
    && IsLocation(schema, e.spec) && e.spec.fromTable == x.table
    && e.spec.fromColumn in x.model
    && e.to in Targets(x.model[e.spec.fromColumn])
  }

  predicate Refers(schema: Schema, w: World, e: Edge) {
    e.from in w && RowRefers(schema, w[e.from], e)
  }

  predicate MaybeRefers(schema: Schema, x: Option<Entry>, e: Edge) {
    x.Some? && RowRefers(schema, x.value, e)
  }

  /** `rs` holds exactly the references of `edges`. */
  ghost predicate Exact(rs: Index, edges: iset<Edge>) {
    forall e: Edge :: e.from in From(rs, e.spec, e.to) <==> e in edges
  }

  ghost function EdgesOf(schema: Schema, w: World): iset<Edge> {
    iset e: Edge | Refers(schema, w, e)
  }

  // ---- what a row update toggles ----

  function EntryOf(table: Table, m: Option<Model>): Option<Entry> {
    if m.Some? then Some(Entry(table, m.value)) else None
  }

  predicate MaybeValid(schema: Schema, x: Option<Entry>) {
    x.Some? ==> ValidEntry(schema, x.value)
  }

  lemma SetTargets(s: set<Atom>, t: set<Atom>)
    requires forall a :: a in s + t ==> a.UuidAtom?
    ensures UuidsOf(SymDiff(s, t)) == SymDiff(UuidsOf(s), UuidsOf(t))
    ensures UuidsOf(s) == {} <==> s == {}
  {
    forall u
      ensures u in UuidsOf(s) <==> UuidAtom(u) in s
      ensures u in UuidsOf(t) <==> UuidAtom(u) in t
      ensures u in UuidsOf(SymDiff(s, t)) <==> UuidAtom(u) in SymDiff(s, t)
    {
    }
    if s != {} {
      var a :| a in s;
      assert a.u in UuidsOf(s);
    }
  }

  /** A column value of a reference column, before and after. */
  lemma ColumnToggles(cs: ColumnSchema, o: Value, d: Value, n: Value)
    requires cs.kind == AtomKind(UuidType) || (cs.kind.SetKind? && cs.kind.t == UuidType)
    requires HasKind(o, cs.kind) && HasKind(n, cs.kind) && SameKind(o, d)
    requires Apply(o, d) == n && n != o
    requires cs.kind.AtomKind? ==> !IsDefault(o)
    ensures ModifiedTargets(d, if IsDefault(o) then None else Some(o)) == SymDiff(Targets(o), Targets(n))
  {
    if cs.kind.SetKind? {
      SymDiffLaws(o.s, d.s, n.s);
      assert forall a :: a in d.s ==> a in o.s || a in n.s;
      SetTargets(o.s, n.s);
      assert SymDiff(o.s, n.s) == d.s;
    }
  }

  lemma ModifyToggles(schema: Schema, table: Table, o: Model, d: Row, n: Model, s: Spec, to: Uuid)
    requires RefSchema(schema) && ValidEntry(schema, Entry(table, o)) && ValidEntry(schema, Entry(table, n))
    requires Tight(o, d) && ApplyDelta(o, d) == n
    ensures ModifiedAt(schema.tables[table], table, d, Some(RowOf(o)), s, to) <==>
      RowRefers(schema, Entry(table, o), Edge(s, to, "")) != RowRefers(schema, Entry(table, n), Edge(s, to, ""))
  {
    var ts, c := schema.tables[table], s.fromColumn;
    if IsLocation(schema, s) && s.fromTable == table {
      DeltaAt(o, d, n, c);
      if c in d {
        ColumnToggles(ts[c], o[c], d[c], n[c]);
      }
    }
  }

  lemma WholeRowToggles(schema: Schema, table: Table, m: Model, before: Option<Row>, s: Spec, to: Uuid)
    requires RefSchema(schema) && ValidEntry(schema, Entry(table, m))
    requires before.None? || before == Some(RowOf(m))
    ensures ModifiedAt(schema.tables[table], table, RowOf(m), before, s, to) <==>
      RowRefers(schema, Entry(table, m), Edge(s, to, ""))
  {
    var ts, c := schema.tables[table], s.fromColumn;
    if IsLocation(schema, s) && s.fromTable == table {
      var v := m[c];
      assert HasKind(v, ts[c].kind);
      if ts[c].kind.SetKind? {
        SetTargets(v.s, {});
      }
    }
  }

  /** The reference modifications of a row update: exactly the references that the row has
      before or after the update but not both are toggled. */
  method UpdateModifications(schema: Schema, table: Table, uuid: Uuid, u: ModelUpdate) returns (refs: Index)
    requires RefSchema(schema) && table in schema.tables
    requires u != NO_UPDATE && Summarizes(u, u.before, u.after)
    requires MaybeValid(schema, EntryOf(table, u.before)) && MaybeValid(schema, EntryOf(table, u.after))
    ensures forall e: Edge :: e.from in From(refs, e.spec, e.to) <==>
      e.from == uuid && MaybeRefers(schema, EntryOf(table, u.before), e) != MaybeRefers(schema, EntryOf(table, u.after), e)
    ensures forall s, to :: Has(refs, s, to) <==> From(refs, s, to) != {}
  {
    var ru, ts := u.row.value, schema.tables[table];
    if ru.delete.Some? {
      refs := RowModifications(ts, table, uuid, ru.before.value, ru.before);
      forall s, to { WholeRowToggles(schema, table, u.before.value, ru.before, s, to); }
    } else if ru.delta.Some? {
      refs := RowModifications(ts, table, uuid, ru.delta.value, ru.before);
      forall s, to { ModifyToggles(schema, table, u.before.value, ru.delta.value, u.after.value, s, to); }
    } else {
      refs := RowModifications(ts, table, uuid, ru.insert.value, None);
      forall s, to { WholeRowToggles(schema, table, u.after.value, None, s, to); }
    }
    forall e: Edge
      ensures e.from in From(refs, e.spec, e.to) <==>
        e.from == uuid && MaybeRefers(schema, EntryOf(table, u.before), e) != MaybeRefers(schema, EntryOf(table, u.after), e)
    {
      assert forall x: Entry :: RowRefers(schema, x, e) <==> RowRefers(schema, x, Edge(e.spec, e.to, ""));
    }
  }
}
