/** What references, garbage and sound databases are in elementary terms: the columns of the schema,
    the values of the rows and the tables of the root set (ovsdb/schema.go, updates/references.go). */
module Soundness {
  import opened Values
  import opened Difference
  import opened References
  import opened Tracker
  import Collector
  import opened GarbageCollection
  import opened Levels
  import opened Outcomes
  import opened Rounds

  // ---- references ----

  /** The value is the UUID or a set that has it. */
  predicate HasUuid(v: Value, to: Uuid) {
    v == AtomValue(UuidAtom(to)) || (v.SetValue? && UuidAtom(to) in v.s)
  }

  /** Row `f` holds the UUID of row `to` in reference column `c`. */
  predicate PointsTo(schema: Schema, w: World, f: Uuid, c: Column, to: Uuid) {
    && f in w && w[f].table in schema.tables && c in schema.tables[w[f].table] && c in w[f].model
    && schema.tables[w[f].table][c].refTable != ""
    && HasUuid(w[f].model[c], to)
  }

  /** The reference is one that keeps its target. */
  predicate Keeps(schema: Schema, w: World, f: Uuid, c: Column, to: Uuid) {
    PointsTo(schema, w, f, c, to) && schema.tables[w[f].table][c].strong
  }

  /** The table is in the root set, or there is none. */
  predicate KeptAnyway(schema: Schema, t: Table) {
    t in schema.roots || |schema.roots| == 0
  }

  /** Where the reverse index has a reference of a column. */
  function Location(schema: Schema, w: World, f: Uuid, c: Column): Spec
    requires f in w && w[f].table in schema.tables && c in schema.tables[w[f].table]
  {
    Spec(schema.tables[w[f].table][c].refTable, w[f].table, c, false)
  }

  lemma RefersMeans(schema: Schema, w: World, e: Edge)
    ensures Refers(schema, w, e) <==>
      PointsTo(schema, w, e.from, e.spec.fromColumn, e.to) && e.spec == Location(schema, w, e.from, e.spec.fromColumn)
    ensures IsStrong(schema, e.spec) && Refers(schema, w, e) <==>
      Keeps(schema, w, e.from, e.spec.fromColumn, e.to) && e.spec == Location(schema, w, e.from, e.spec.fromColumn)
  {
  }

  lemma PointsRefers(schema: Schema, w: World, f: Uuid, c: Column, to: Uuid) returns (e: Edge)
    requires PointsTo(schema, w, f, c, to)
    ensures e == Edge(Location(schema, w, f, c), to, f) && Refers(schema, w, e)
    ensures Keeps(schema, w, f, c, to) ==> IsStrong(schema, e.spec)
  {
    e := Edge(Location(schema, w, f, c), to, f);
    RefersMeans(schema, w, e);
  }

  /** Which references a change of a column modifies: the new UUID and the old one, or the UUIDs of
      a set difference; an empty difference clears the column. */
  lemma ModifiedMeans(change: Value, before: Option<Value>, to: Uuid)
    requires before.Some? ==> before.value.AtomValue? || before.value.SetValue?
    ensures change.AtomValue? && change.a.UuidAtom? ==>
      (to in ModifiedTargets(change, before) <==> HasUuid(change, to) || (to != "" && before.Some? && HasUuid(before.value, to)))
    ensures change.SetValue? && (change.s != {} || before.None?) ==> (to in ModifiedTargets(change, before) <==> HasUuid(change, to))
    ensures change == SetValue({}) && before.Some? ==> (to in ModifiedTargets(change, before) <==> HasUuid(before.value, to))
  {
  }

  lemma RootMeans(schema: Schema, t: Table)
    ensures IsRoot(schema, t) <==> KeptAnyway(schema, t)
  {
  }

  // ---- sound databases ----

  /** In a sound database every reference is to a row of the table it has to be to, every row
      outside of the root set is kept by some row, and the reverse index has exactly the references
      of the rows. */
  lemma SoundMeans(schema: Schema, home: Uuid -> Table, db: Database)
    requires Sound(schema, home, db)
    ensures forall f, c, to :: PointsTo(schema, db.rows, f, c, to) ==>
      to in db.rows && db.rows[to].table == schema.tables[db.rows[f].table][c].refTable
    ensures forall u :: u in db.rows && !KeptAnyway(schema, db.rows[u].table) ==> exists f, c :: Keeps(schema, db.rows, f, c, u)
    ensures forall s, f, to :: f in From(db.references, s, to) <==>
      PointsTo(schema, db.rows, f, s.fromColumn, to) && s == Location(schema, db.rows, f, s.fromColumn)
  {
    forall f, c, to | PointsTo(schema, db.rows, f, c, to)
      ensures to in db.rows && db.rows[to].table == schema.tables[db.rows[f].table][c].refTable
    {
      var e := PointsRefers(schema, db.rows, f, c, to);
      assert MaybeRefers(schema, Some(db.rows[f]), e);
    }
    forall u | u in db.rows && !KeptAnyway(schema, db.rows[u].table)
      ensures exists f, c :: Keeps(schema, db.rows, f, c, u)
    {
      RootMeans(schema, db.rows[u].table);
      var e: Edge :| IsStrong(schema, e.spec) && Refers(schema, db.rows, e) && e.to == u;
      RefersMeans(schema, db.rows, e);
    }
    forall s, f, to
      ensures f in From(db.references, s, to) <==>
        PointsTo(schema, db.rows, f, s.fromColumn, to) && s == Location(schema, db.rows, f, s.fromColumn)
    {
      var e := Edge(s, to, f);
      assert e.from in From(db.references, e.spec, e.to) <==> e in EdgesOf(schema, db.rows);
      RefersMeans(schema, db.rows, e);
    }
  }

  // ---- garbage ----

  /** Whatever has to go when the rows of `X` go is in `X`. */
  ghost predicate GoesAlong(schema: Schema, w0: World, X: set<Uuid>) {
    forall u :: u in w0 && !KeptAnyway(schema, w0[u].table) && (forall f, c :: Keeps(schema, w0, f, c, u) ==> f in X) ==> u in X
  }

  lemma OnlyFromMeans(schema: Schema, w0: World, u: Uuid, X: set<Uuid>)
    ensures OnlyFrom(schema, w0, u, X) <==> forall f, c :: Keeps(schema, w0, f, c, u) ==> f in X
  {
    if OnlyFrom(schema, w0, u, X) {
      forall f, c | Keeps(schema, w0, f, c, u)
        ensures f in X
      {
        var e := PointsRefers(schema, w0, f, c, u);
      }
    } else {
      var e: Edge :| IsStrong(schema, e.spec) && Refers(schema, w0, e) && e.to == u && e.from !in X;
      RefersMeans(schema, w0, e);
    }
  }

  lemma ClosedMeans(schema: Schema, w0: World, X: set<Uuid>)
    ensures Closed(schema, w0, X) <==> GoesAlong(schema, w0, X)
  {
    forall u | u in w0
      ensures OnlyFrom(schema, w0, u, X) <==> forall f, c :: Keeps(schema, w0, f, c, u) ==> f in X
      ensures IsRoot(schema, w0[u].table) <==> KeptAnyway(schema, w0[u].table)
    {
      OnlyFromMeans(schema, w0, u, X);
      RootMeans(schema, w0[u].table);
    }
  }

  /** The rows that are collected: none of a root table, and each kept by nothing but rows that are
      collected too; every other row is kept by a row that stays; and no smaller set would do. */
  lemma GarbageMeans(schema: Schema, w0: World, C: set<Uuid>)
    requires Garbage(schema, w0, C)
    ensures forall u :: u in C ==> u in w0 && !KeptAnyway(schema, w0[u].table) && forall f, c :: Keeps(schema, w0, f, c, u) ==> f in C
    ensures forall u :: u in w0 && u !in C && !KeptAnyway(schema, w0[u].table) ==> exists f, c :: f !in C && Keeps(schema, w0, f, c, u)
    ensures forall X :: GoesAlong(schema, w0, X) ==> C <= X
  {
    forall X | GoesAlong(schema, w0, X)
      ensures C <= X
    {
      ClosedMeans(schema, w0, X);
    }
    ClosedMeans(schema, w0, C);
    forall u | u in C
      ensures !KeptAnyway(schema, w0[u].table) && forall f, c :: Keeps(schema, w0, f, c, u) ==> f in C
    {
      CollectedForReason(schema, w0, C, u);
    }
  }

  /** Without a reason to collect it, the row could be left out. */
  lemma CollectedForReason(schema: Schema, w0: World, C: set<Uuid>, u: Uuid)
    requires Garbage(schema, w0, C) && u in C
    ensures !KeptAnyway(schema, w0[u].table) && forall f, c :: Keeps(schema, w0, f, c, u) ==> f in C
  {
    if KeptAnyway(schema, w0[u].table) || exists f, c :: Keeps(schema, w0, f, c, u) && f !in C {
      CouldStay(schema, w0, C, u);
      ClosedMeans(schema, w0, C - {u});
    }
  }

  lemma CouldStay(schema: Schema, w0: World, C: set<Uuid>, u: Uuid)
    requires Closed(schema, w0, C) && u in w0
    requires KeptAnyway(schema, w0[u].table) || exists f, c :: Keeps(schema, w0, f, c, u) && f !in C
    ensures GoesAlong(schema, w0, C - {u})
  {
    ClosedMeans(schema, w0, C);
  }

  // ---- the outcome of a transaction ----

  lemma WeakIsWhy(schema: Schema, w0: World) returns (f: Uuid, c: Column, to: Uuid)
    requires Violates(schema, w0)
    ensures PointsTo(schema, w0, f, c, to) && !Keeps(schema, w0, f, c, to)
  {
    var k: nat :| ViolatesIn(schema, w0, k);
    f, c :| ViolatedAt(schema, w0, k, f, c);
    to :| to in DueTo(schema, w0, k, f, c);
    var e := Edge(Collector.LocationOf(schema, w0[f].table, c), to, f);
    assert DueAt(schema, w0, k, e);
    RefersMeans(schema, w0, e);
  }

  /** A transaction is refused when a row points, with a reference that keeps its target, to a row
      that is not there; otherwise only for what weak references leave behind. */
  lemma RefusableMeans(schema: Schema, w0: World)
    ensures (exists f, c, to :: Keeps(schema, w0, f, c, to) && to !in w0) <==> !StrongIntegrity(schema, w0)
    ensures (exists f, c, to :: Keeps(schema, w0, f, c, to) && to !in w0) ==> Refusable(schema, w0)
    ensures Refusable(schema, w0) ==>
      || (exists f, c, to :: Keeps(schema, w0, f, c, to) && to !in w0)
      || (exists f, c, to :: PointsTo(schema, w0, f, c, to) && !Keeps(schema, w0, f, c, to))
  {
    if f, c, to :| Keeps(schema, w0, f, c, to) && to !in w0 {
      var e := PointsRefers(schema, w0, f, c, to);
    }
    if !StrongIntegrity(schema, w0) {
      var e: Edge :| IsStrong(schema, e.spec) && Refers(schema, w0, e) && e.to !in w0;
      RefersMeans(schema, w0, e);
    } else if Refusable(schema, w0) {
      var f, c, to := WeakIsWhy(schema, w0);
    }
  }

  /** What stays of a row: columns that keep their targets and columns without references as they
      are, and of other set columns the UUIDs of the rows that stay. */
  lemma SweptMeans(schema: Schema, home: Uuid -> Table, w0: World, C: set<Uuid>, u: Uuid, c: Column)
    requires ValidWorld(schema, home, w0) && u in w0 && u !in C && c in w0[u].model
    ensures var r := Sweep(schema, w0 - C);
      && r.Keys == w0.Keys - C && r[u].table == w0[u].table && r[u].model.Keys == w0[u].model.Keys
      && var cs := schema.tables[w0[u].table][c];
         && (cs.refTable == "" || cs.strong || cs.kind.AtomKind? ==> r[u].model[c] == w0[u].model[c])
         && (cs.refTable != "" && !cs.strong && !cs.kind.AtomKind? ==>
               && w0[u].model[c].SetValue? && r[u].model[c].SetValue?
               && forall to :: UuidAtom(to) in r[u].model[c].s <==> UuidAtom(to) in w0[u].model[c].s && to in w0 && to !in C)
  {
    assert ValidEntry(schema, w0[u]);
    assert HasKind(w0[u].model[c], schema.tables[w0[u].table][c].kind);
  }
}
