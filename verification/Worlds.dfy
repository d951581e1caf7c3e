/** The tables of a server as one set of rows, and operations that keep its references in order
    (database/transaction/transaction.go, updates/updates.go). */
module Worlds {
  import opened Values
  import opened Difference
  import opened Merge
  import opened References
  import Mutations
  import Operations
  import Tracker
  import ModelUpdates
  import Cache
  import Overlay
  import Replication
  import Notices

  // ---- rows with their references in order ----

  /** A column value that holds no all-zero UUID and refers to rows of the right table only. */
  ghost predicate ColumnOk(home: Uuid -> Table, cs: ColumnSchema, v: Value) {
    && NormalValue(v)
    && (cs.refTable != "" ==>
          (forall to :: to in Targets(v) ==> home(to) == cs.refTable) && (cs.kind.AtomKind? ==> !IsDefault(v)))
  }

  ghost predicate RowOk(home: Uuid -> Table, ts: TableSchema, m: Model) {
    TypedModel(ts, m) && forall c :: c in ts ==> ColumnOk(home, ts[c], m[c])
  }

  ghost predicate RowsOk(home: Uuid -> Table, t: Table, ts: TableSchema, rows: Cache.Rows) {
    forall u :: u in rows ==> home(u) == t && RowOk(home, ts, rows[u])
  }

  /** Rows are in order exactly when they are valid rows with references to the right tables. */
  lemma OkIsValid(schema: Schema, home: Uuid -> Table, t: Table, m: Model)
    requires t in schema.tables
    ensures RowOk(home, schema.tables[t], m) <==>
      ValidEntry(schema, Entry(t, m)) && Tracker.Homed(schema, home, Some(Entry(t, m)))
  {
    var (x, ts) := (Entry(t, m), schema.tables[t]);
    if TypedModel(ts, m) && Tracker.Homed(schema, home, Some(x)) {
      forall c, to | c in ts && ts[c].refTable != "" && to in Targets(m[c])
        ensures home(to) == ts[c].refTable
      {
        assert MaybeRefers(schema, Some(x), Edge(Spec(ts[c].refTable, t, c, false), to, ""));
      }
    }
  }

  /** The columns that hold references are sets of UUIDs and required UUIDs. */
  predicate RefColumns(ts: TableSchema) {
    forall c :: c in ts && ts[c].refTable != "" ==>
      ts[c].kind == AtomKind(UuidType) || (ts[c].kind.SetKind? && ts[c].kind.t == UuidType)
  }

  /** What an operation writes keeps references in order. */
  ghost predicate OperationOk(home: Uuid -> Table, t: Table, ts: TableSchema, op: Overlay.Operation) {
    match op
    case Insert(uuid, row) => home(uuid) == t && (Operations.TypedRow(ts, row) ==> RowOk(home, ts, ModelOf(ts, row)))
    case Update(_, row) => forall c :: c in row && c in ts ==> ColumnOk(home, ts[c], row[c])
    case Mutate(_, mus) => forall mu :: mu in mus && mu.column in ts ==> MutationOk(home, ts[mu.column], mu)
    case _ => true
  }

  ghost predicate MutationOk(home: Uuid -> Table, cs: ColumnSchema, mu: Mutations.Mutation) {
    cs.refTable != "" && mu.mutator == Mutations.Insert ==> forall to :: to in Targets(mu.value) ==> home(to) == cs.refTable
  }

  lemma TargetsMutated(s: set<Atom>, t: set<Atom>, u: Uuid)
    ensures u in UuidsOf(s + t) ==> u in UuidsOf(s) || u in UuidsOf(t)
    ensures u in UuidsOf(s - t) ==> u in UuidsOf(s)
  {
  }

  lemma MutatedOk(home: Uuid -> Table, cs: ColumnSchema, v: Value, mu: Mutations.Mutation)
    requires ColumnOk(home, cs, v) && HasKind(v, cs.kind) && MutationOk(home, cs, mu)
    requires cs.refTable != "" ==> cs.kind == AtomKind(UuidType) || (cs.kind.SetKind? && cs.kind.t == UuidType)
    requires Mutations.ValidMutation(cs, mu.mutator, mu.value)
    requires mu.value.AtomValue? ==> !Mutations.DividesByZero(mu.mutator, mu.value.a)
    ensures ColumnOk(home, cs, Mutations.Mutate(v, mu.mutator, mu.value).0)
  {
    var v' := Mutations.Mutate(v, mu.mutator, mu.value).0;
    if cs.refTable != "" {
      forall to | to in Targets(v')
        ensures home(to) == cs.refTable
      {
        TargetsMutated(v.s, mu.value.s, to);
      }
    }
  }

  lemma {:induction false} MutationsOk(home: Uuid -> Table, ts: TableSchema, m: Model, mus: seq<Mutations.Mutation>)
    requires RefColumns(ts) && RowOk(home, ts, m) && Operations.MutateAll(ts, m, mus).Ok?
    requires forall mu :: mu in mus && mu.column in ts ==> MutationOk(home, ts[mu.column], mu)
    ensures RowOk(home, ts, Operations.MutateAll(ts, m, mus).value)
  {
    if mus != [] {
      var (front, mu) := (mus[..|mus| - 1], mus[|mus| - 1]);
      assert mu in mus && forall x :: x in front ==> x in mus;
      MutationsOk(home, ts, m, front);
      if mu.column in ts {
        MutatedOk(home, ts[mu.column], Operations.MutateAll(ts, m, front).value[mu.column], mu);
      }
    }
  }

  lemma EffectOk(home: Uuid -> Table, t: Table, ts: TableSchema, m: Model, op: Overlay.Operation)
    requires RefColumns(ts) && RowOk(home, ts, m) && !op.Insert? && OperationOk(home, t, ts, op)
    ensures var r := Overlay.Effect(ts, m, op); r.Some? && r.value.Some? ==> RowOk(home, ts, r.value.value)
  {
    if op.Mutate? && Operations.MutateAll(ts, m, op.mutations).Ok? {
      MutationsOk(home, ts, m, op.mutations);
    }
    if op.Update? && Overlay.Effect(ts, m, op).Some? {
      var n := Operations.Changed(ts, m, op.row, false);
      forall c | c in ts
        ensures ColumnOk(home, ts[c], n[c])
      {
      }
    }
  }

  /** An operation that touches rows one by one keeps them in order. */
  lemma RowWiseOk(home: Uuid -> Table, t: Table, ts: TableSchema, from: Cache.Rows, op: Overlay.Operation, to: Cache.Rows)
    requires RefColumns(ts) && RowsOk(home, t, ts, from) && OperationOk(home, t, ts, op) && Overlay.RowWise(ts, from, op, to)
    ensures RowsOk(home, t, ts, to)
  {
    forall u | u in to
      ensures home(u) == t && RowOk(home, ts, to[u])
    {
      if !op.Insert? {
        EffectOk(home, t, ts, from[u], op);
      }
    }
  }

  lemma {:induction false} AfterAllOk(home: Uuid -> Table, t: Table, ts: TableSchema, rows: Cache.Rows, ops: seq<Overlay.Operation>)
    requires RefColumns(ts) && RowsOk(home, t, ts, rows) && forall op :: op in ops ==> OperationOk(home, t, ts, op)
    ensures Overlay.AllTyped(ts, rows) && RowsOk(home, t, ts, Overlay.AfterAll(ts, rows, ops))
  {
    if ops != [] {
      var (front, op) := (ops[..|ops| - 1], ops[|ops| - 1]);
      assert op in ops && forall x :: x in front ==> x in ops;
      AfterAllOk(home, t, ts, rows, front);
      Overlay.AfterRowWise(ts, Overlay.AfterAll(ts, rows, front), op);
      RowWiseOk(home, t, ts, Overlay.AfterAll(ts, rows, front), op, Overlay.AfterAll(ts, rows, ops));
    }
  }

  // ---- the rows of all tables ----

  /** No UUID names rows of two tables. */
  predicate Separate<T(!new)>(s: map<Table, map<Uuid, T>>) {
    forall t, t', u :: t in s && t' in s && u in s[t] && u in s[t'] ==> t == t'
  }

  function WorldOf(s: Replication.Server): World
    requires Separate(s)
  {
    map t, u | t in s && u in s[t] :: u := Entry(t, s[t][u])
  }

  ghost predicate ServerOk(schema: Schema, home: Uuid -> Table, s: Replication.Server) {
    s.Keys == schema.tables.Keys && Disordered(schema, home, s) == {}
  }

  /** The tables with references out of order. */
  ghost function Disordered(schema: Schema, home: Uuid -> Table, s: Replication.Server): set<Table> {
    set t | t in s && !(t in schema.tables && RowsOk(home, t, schema.tables[t], s[t]))
  }

  lemma OkAt(schema: Schema, home: Uuid -> Table, s: Replication.Server, t: Table)
    requires ServerOk(schema, home, s) && t in s
    ensures t in schema.tables && RowsOk(home, t, schema.tables[t], s[t])
  {
    assert t !in Disordered(schema, home, s);
  }

  lemma OkIsSeparate(schema: Schema, home: Uuid -> Table, s: Replication.Server)
    requires ServerOk(schema, home, s)
    ensures Separate(s)
  {
    forall t, t', u | t in s && t' in s && u in s[t] && u in s[t']
      ensures t == t'
    {
      OkAt(schema, home, s, t);
      OkAt(schema, home, s, t');
    }
  }

  lemma WorldHas(s: Replication.Server, t: Table, u: Uuid)
    requires Separate(s) && t in s
    ensures u in s[t] <==> u in WorldOf(s) && WorldOf(s)[u].table == t
    ensures u in s[t] ==> WorldOf(s)[u] == Entry(t, s[t][u])
  {
  }

  lemma WorldRoundTrip(schema: Schema, s: Replication.Server)
    requires Separate(s) && s.Keys == schema.tables.Keys
    ensures Notices.ServerOf(schema, WorldOf(s)) == s
  {
    forall t | t in s
      ensures Notices.TableOf(WorldOf(s), t) == s[t]
    {
      forall u
        ensures u in Notices.TableOf(WorldOf(s), t) <==> u in s[t]
        ensures u in s[t] ==> Notices.TableOf(WorldOf(s), t)[u] == s[t][u]
      {
        WorldHas(s, t, u);
      }
    }
  }

  lemma ServerRoundTrip(schema: Schema, w: World)
    requires forall u :: u in w ==> w[u].table in schema.tables
    ensures Separate(Notices.ServerOf(schema, w)) && WorldOf(Notices.ServerOf(schema, w)) == w
  {
    var s := Notices.ServerOf(schema, w);
    forall u
      ensures u in WorldOf(s) <==> u in w
      ensures u in w ==> WorldOf(s)[u] == w[u]
    {
      if u in w {
        WorldHas(s, w[u].table, u);
      }
    }
  }

  /** The tables are in order exactly when all their rows are valid together. */
  lemma OkIsValidWorld(schema: Schema, home: Uuid -> Table, s: Replication.Server)
    requires RefSchema(schema) && ServerOk(schema, home, s)
    ensures Separate(s) && Tracker.ValidWorld(schema, home, WorldOf(s))
  {
    OkIsSeparate(schema, home, s);
    var w := WorldOf(s);
    forall u | u in w
      ensures ValidEntry(schema, w[u]) && w[u].table == home(u) && Tracker.Homed(schema, home, Some(w[u]))
    {
      var t := w[u].table;
      WorldHas(s, t, u);
      OkAt(schema, home, s, t);
      OkIsValid(schema, home, t, s[t][u]);
    }
  }

  lemma ValidWorldIsOk(schema: Schema, home: Uuid -> Table, w: World)
    requires Tracker.ValidWorld(schema, home, w)
    ensures ServerOk(schema, home, Notices.ServerOf(schema, w))
  {
    var s := Notices.ServerOf(schema, w);
    forall t, u | t in s && u in s[t]
      ensures home(u) == t && RowOk(home, schema.tables[t], s[t][u])
    {
      assert w[u] == Entry(t, s[t][u]);
      OkIsValid(schema, home, t, s[t][u]);
    }
  }

  // ---- the updates of all tables ----

  function ChangesOf(us: ModelUpdates.Updates): Tracker.Changes
    requires Separate(us)
  {
    map t, u | t in us && u in us[t] :: u := Tracker.Change(t, us[t][u])
  }

  /** The updates of every table lead from its old to its new rows. */
  ghost predicate LeadsTo(us: ModelUpdates.Updates, s: Replication.Server, s': Replication.Server) {
    && ModelUpdates.Pruned(us) && us.Keys <= s.Keys && s'.Keys == s.Keys
    && Unled(us, s, s') == {}
  }

  /** The tables whose updates do not lead from the old to the new rows. */
  ghost function Unled(us: ModelUpdates.Updates, s: Replication.Server, s': Replication.Server): set<Table> {
    set t | t in s && !(t in s' && Overlay.Accumulated(us, t, s[t], s'[t]))
  }

  lemma LeadsAt(us: ModelUpdates.Updates, s: Replication.Server, s': Replication.Server, t: Table, u: Uuid)
    requires LeadsTo(us, s, s') && t in s
    ensures Summarizes(ModelUpdates.Lookup(us, t, u), At(s[t], u), At(s'[t], u))
    ensures t in us && u in us[t] ==>
      us[t][u].before == At(s[t], u) && us[t][u].after == At(s'[t], u) && us[t][u] != NO_UPDATE && (u in s[t] || u in s'[t])
  {
    assert t !in Unled(us, s, s');
  }

  lemma UpdatesSeparate(schema: Schema, home: Uuid -> Table, us: ModelUpdates.Updates, s: Replication.Server, s': Replication.Server)
    requires ServerOk(schema, home, s) && ServerOk(schema, home, s') && LeadsTo(us, s, s')
    ensures Separate(us)
    ensures forall t, u :: t in us && u in us[t] ==> home(u) == t
  {
    forall t, u | t in us && u in us[t]
      ensures home(u) == t
    {
      LeadsAt(us, s, s', t, u);
      OkAt(schema, home, s, t);
      OkAt(schema, home, s', t);
    }
    forall t, t', u | t in us && t' in us && u in us[t] && u in us[t']
      ensures t == t'
    {
      assert home(u) == t && home(u) == t';
    }
  }

  lemma WorldAt(schema: Schema, home: Uuid -> Table, s: Replication.Server, u: Uuid)
    requires ServerOk(schema, home, s) && Separate(s)
    ensures At(WorldOf(s), u) == if home(u) in s && u in s[home(u)] then Some(Entry(home(u), s[home(u)][u])) else None
  {
    if u in WorldOf(s) {
      var t := WorldOf(s)[u].table;
      OkAt(schema, home, s, t);
    }
  }

  /** Updates that lead from tables in order to tables in order are valid changes of their rows. */
  lemma ChangesLead(schema: Schema, home: Uuid -> Table, us: ModelUpdates.Updates, s: Replication.Server, s': Replication.Server)
    requires RefSchema(schema) && ServerOk(schema, home, s) && ServerOk(schema, home, s') && LeadsTo(us, s, s')
    ensures Separate(us) && Separate(s) && Separate(s')
    ensures Tracker.ValidChanges(schema, home, WorldOf(s), ChangesOf(us))
    ensures Tracker.Patch(WorldOf(s), ChangesOf(us)) == WorldOf(s')
  {
    UpdatesSeparate(schema, home, us, s, s');
    OkIsValidWorld(schema, home, s);
    OkIsValidWorld(schema, home, s');
    forall u
      ensures u in ChangesOf(us) ==>
        Tracker.ValidChange(schema, home, u, ChangesOf(us)[u]) && Tracker.Before(ChangesOf(us)[u]) == At(WorldOf(s), u)
      ensures At(Tracker.Patch(WorldOf(s), ChangesOf(us)), u) == At(WorldOf(s'), u)
    {
      ChangeLeads(schema, home, us, s, s', u);
    }
    SameWorld(Tracker.Patch(WorldOf(s), ChangesOf(us)), WorldOf(s'));
  }

  lemma SameWorld(w: World, w': World)
    requires forall u :: At(w, u) == At(w', u)
    ensures w == w'
  {
    forall u
      ensures u in w <==> u in w'
      ensures u in w ==> w[u] == w'[u]
    {
      assert At(w, u) == At(w', u);
    }
  }

  lemma ChangeLeads(schema: Schema, home: Uuid -> Table, us: ModelUpdates.Updates, s: Replication.Server, s': Replication.Server, u: Uuid)
    requires ServerOk(schema, home, s) && ServerOk(schema, home, s') && LeadsTo(us, s, s')
    requires Separate(us) && Separate(s) && Separate(s') && forall t, u :: t in us && u in us[t] ==> home(u) == t
    requires Tracker.ValidWorld(schema, home, WorldOf(s)) && Tracker.ValidWorld(schema, home, WorldOf(s'))
    ensures u in ChangesOf(us) ==>
      Tracker.ValidChange(schema, home, u, ChangesOf(us)[u]) && Tracker.Before(ChangesOf(us)[u]) == At(WorldOf(s), u)
    ensures At(Tracker.Patch(WorldOf(s), ChangesOf(us)), u) == At(WorldOf(s'), u)
  {
    var t := home(u);
    WorldAt(schema, home, s, u);
    WorldAt(schema, home, s', u);
    assert u in ChangesOf(us) <==> t in us && u in us[t];
    if t in s {
      LeadsAt(us, s, s', t, u);
    }
    if u in ChangesOf(us) {
      var ch := ChangesOf(us)[u];
      assert ch == Tracker.Change(t, us[t][u]);
      assert Tracker.Before(ch) == At(WorldOf(s), u) && Tracker.After(ch) == At(WorldOf(s'), u);
    }
  }

  /** The tables in which an immutable column has changed. */
  ghost function Forbidden(schema: Schema, s: Replication.Server, s': Replication.Server): set<Table> {
    set t | t in s && !(t in s' && t in schema.tables && Overlay.AllPermitted(schema.tables[t], s[t], s'[t]))
  }

  ghost predicate TablesPermitted(schema: Schema, s: Replication.Server, s': Replication.Server) {
    Forbidden(schema, s, s') == {}
  }

  lemma KeepsInTables(schema: Schema, home: Uuid -> Table, s: Replication.Server, s': Replication.Server)
    requires ServerOk(schema, home, s) && ServerOk(schema, home, s') && Separate(s) && Separate(s')
    requires TablesPermitted(schema, s, s')
    ensures Notices.KeepsImmutable(schema, WorldOf(s), WorldOf(s'))
  {
    var (w, w') := (WorldOf(s), WorldOf(s'));
    forall u, c | u in w && u in w' && w[u].table in schema.tables && c in schema.tables[w[u].table] && c in w[u].model &&
                  !schema.tables[w[u].table][c].mutable
      ensures c in w'[u].model && w'[u].model[c] == w[u].model[c]
    {
      WorldAt(schema, home, s, u);
      WorldAt(schema, home, s', u);
      assert home(u) !in Forbidden(schema, s, s');
    }
  }
}
