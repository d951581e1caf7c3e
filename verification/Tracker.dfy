/** Referential integrity of a transaction: lazily loaded reverse references, collection of
    rows that are no longer strongly referenced, and removal of weak references to missing
    rows (updates/references.go).

    A set of updates is keyed by row here; a UUID names a row of at most one table. */
module Tracker {
  import opened Values
  import opened Difference
  import opened Merge
  import opened References

  datatype Change = Change(table: Table, update: ModelUpdate)

  type Changes = map<Uuid, Change>

  /** The committed rows and the stored reverse references. */
  datatype Database = Database(rows: World, references: Index)

  datatype TrackError = IntegrityViolation | ConstraintViolation | NotMutableColumn | MergeFailed

  // ---- worlds and changes ----

  function Before(ch: Change): Option<Entry> {
    EntryOf(ch.table, ch.update.before)
  }

  function After(ch: Change): Option<Entry> {
    EntryOf(ch.table, ch.update.after)
  }

  /** The rows after a set of changes. */
  function Patch(w: World, chs: Changes): World {
    map u | u in w.Keys + chs.Keys && (u in chs ==> After(chs[u]).Some?) ::
      if u in chs then After(chs[u]).value else w[u]
  }

  /** Every reference of a row is to a row of the table its column refers to; `home` tells the
      one table of each UUID. */
  ghost predicate Homed(schema: Schema, home: Uuid -> Table, x: Option<Entry>) {
    forall e: Edge :: MaybeRefers(schema, x, e) ==> e.spec.toTable == home(e.to)
  }

  ghost predicate ValidChange(schema: Schema, home: Uuid -> Table, u: Uuid, ch: Change) {
    && ch.table in schema.tables && ch.table == home(u)
    && ch.update != NO_UPDATE && Summarizes(ch.update, ch.update.before, ch.update.after)
    && MaybeValid(schema, Before(ch)) && MaybeValid(schema, After(ch))
    && Homed(schema, home, Before(ch)) && Homed(schema, home, After(ch))
  }

  /** Changes that start from the rows of `w`. */
  ghost predicate ValidChanges(schema: Schema, home: Uuid -> Table, w: World, chs: Changes) {
    forall u :: u in chs ==> ValidChange(schema, home, u, chs[u]) && Before(chs[u]) == At(w, u)
  }

  ghost predicate ValidWorld(schema: Schema, home: Uuid -> Table, w: World) {
    && RefSchema(schema)
    && forall u :: u in w ==> ValidEntry(schema, w[u]) && w[u].table == home(u) && Homed(schema, home, Some(w[u]))
  }

  /** No reference of a row is to a missing row. */
  ghost predicate Integrity(schema: Schema, w: World) {
    forall e: Edge :: Refers(schema, w, e) ==> e.to in w
  }

  ghost predicate StrongIntegrity(schema: Schema, w: World) {
    forall e: Edge :: IsStrong(schema, e.spec) && Refers(schema, w, e) ==> e.to in w
  }

  ghost predicate StronglyReferenced(schema: Schema, w: World, u: Uuid) {
    exists e: Edge :: IsStrong(schema, e.spec) && Refers(schema, w, e) && e.to == u
  }

  /** Every row outside the root set is strongly referenced. */
  ghost predicate Rooted(schema: Schema, w: World) {
    forall u :: u in w && !IsRoot(schema, w[u].table) ==> StronglyReferenced(schema, w, u)
  }

  /** What holds of a database between transactions. */
  ghost predicate Sound(schema: Schema, home: Uuid -> Table, db: Database) {
    && ValidWorld(schema, home, db.rows)
    && Integrity(schema, db.rows)
    && Rooted(schema, db.rows)
    && Exact(db.references, EdgesOf(schema, db.rows))
    && NoDangling(db.references)
  }

  /** The change of row `e.from` toggles reference `e`. */
  ghost predicate Toggles(schema: Schema, chs: Changes, e: Edge) {
    e.from in chs && MaybeRefers(schema, Before(chs[e.from]), e) != MaybeRefers(schema, After(chs[e.from]), e)
  }

  ghost function Toggled(schema: Schema, edges: iset<Edge>, chs: Changes): iset<Edge> {
    iset e: Edge | (e in edges) != Toggles(schema, chs, e)
  }

  /** The references of `edges` are those of the rows of `w`, at least the strong ones. */
  ghost predicate Agree(schema: Schema, edges: iset<Edge>, w: World, all: bool) {
    forall e: Edge :: all || IsStrong(schema, e.spec) ==> (e in edges <==> Refers(schema, w, e))
  }

  lemma AgreeAfterChanges(schema: Schema, edges: iset<Edge>, w: World, all: bool, chs: Changes)
    requires Agree(schema, edges, w, all)
    requires forall e: Edge :: e.from in chs && (all || IsStrong(schema, e.spec)) ==>
      (Refers(schema, w, e) <==> MaybeRefers(schema, Before(chs[e.from]), e))
    ensures Agree(schema, Toggled(schema, edges, chs), Patch(w, chs), all)
  {
    forall e: Edge | all || IsStrong(schema, e.spec)
      ensures e in Toggled(schema, edges, chs) <==> Refers(schema, Patch(w, chs), e)
    {
      assert e in edges <==> Refers(schema, w, e);
    }
  }

  lemma PatchAgrees(schema: Schema, home: Uuid -> Table, w: World, chs: Changes)
    requires ValidChanges(schema, home, w, chs)
    ensures Agree(schema, Toggled(schema, EdgesOf(schema, w), chs), Patch(w, chs), true)
  {
    forall e: Edge | e.from in chs
      ensures Refers(schema, w, e) <==> MaybeRefers(schema, Before(chs[e.from]), e)
    {
      assert Before(chs[e.from]) == At(w, e.from);
    }
    AgreeAfterChanges(schema, EdgesOf(schema, w), w, true, chs);
  }

  lemma PatchValid(schema: Schema, home: Uuid -> Table, w: World, chs: Changes)
    requires ValidWorld(schema, home, w) && ValidChanges(schema, home, w, chs)
    ensures ValidWorld(schema, home, Patch(w, chs))
  {
    var w' := Patch(w, chs);
    forall u | u in w'
      ensures ValidEntry(schema, w'[u]) && w'[u].table == home(u) && Homed(schema, home, Some(w'[u]))
    {
      if u in chs {
        assert ValidChange(schema, home, u, chs[u]);
        assert After(chs[u]) == Some(w'[u]);
      }
    }
  }

  // ---- tracking ----

  /** The tracked part of the index: for a row whose references are loaded it holds the
      references of `edges`; the references to any other row are still those of the database. */
  ghost predicate Tracks(
    schema: Schema, home: Uuid -> Table, db: Database, references: Index, tracked: map<Uuid, Table>, edges: iset<Edge>)
  {
    && (forall e: Edge :: e.to in tracked ==> (e.from in From(references, e.spec, e.to) <==> e in edges))
    && (forall s, to :: Has(references, s, to) ==> to in tracked && s.toTable == home(to) && IsLocation(schema, s))
    && (forall e: Edge :: e.to !in tracked ==> (e in edges <==> Refers(schema, db.rows, e)))
    && (forall s, to :: to in tracked && Has(db.references, s, to) ==> Has(references, s, to))
    && (forall u :: u in tracked ==> tracked[u] == home(u))
  }

  lemma NothingTracked(schema: Schema, home: Uuid -> Table, db: Database)
    ensures Tracks(schema, home, db, map[], map[], EdgesOf(schema, db.rows))
  {
  }

  lemma StoredIsEdge(schema: Schema, home: Uuid -> Table, db: Database, s: Spec, to: Uuid)
    requires Sound(schema, home, db) && Has(db.references, s, to)
    ensures to in db.rows && s.toTable == home(to) && IsLocation(schema, s)
  {
    assert db.references[s][to] != {};
    var f :| f in From(db.references, s, to);
    var e := Edge(s, to, f);
    assert e.from in From(db.references, e.spec, e.to);
    assert Refers(schema, db.rows, e);
    assert MaybeRefers(schema, Some(db.rows[f]), e);
  }

  /** Loading the stored references to a row. */
  lemma Loaded(
    schema: Schema, home: Uuid -> Table, db: Database, references: Index, tracked: map<Uuid, Table>, edges: iset<Edge>,
    uuid: Uuid, existing: Index, references': Index)
    requires Sound(schema, home, db) && Tracks(schema, home, db, references, tracked, edges) && uuid !in tracked
    requires forall s, to :: Has(existing, s, to) <==> s.toTable == home(uuid) && to == uuid && Has(db.references, s, to)
    requires forall s, to :: Has(existing, s, to) ==> From(existing, s, to) == From(db.references, s, to)
    requires forall s, to :: From(references', s, to) == if Has(existing, s, to) then existing[s][to] else From(references, s, to)
    requires forall s, to :: Has(references', s, to) <==> if Has(existing, s, to) then existing[s][to] != {} else Has(references, s, to)
    ensures Tracks(schema, home, db, references', tracked[uuid := home(uuid)], edges)
  {
    var tracked' := tracked[uuid := home(uuid)];
    forall s, to | Has(existing, s, to)
      ensures existing[s][to] != {} && existing[s][to] == From(db.references, s, to) && to == uuid
      ensures s.toTable == home(to) && IsLocation(schema, s)
    {
      assert existing[s][to] == From(existing, s, to);
      StoredIsEdge(schema, home, db, s, to);
    }
    forall e: Edge | e.to in tracked'
      ensures e.from in From(references', e.spec, e.to) <==> e in edges
    {
      if e.to == uuid {
        assert e in edges <==> Refers(schema, db.rows, e);
        assert e.from in From(db.references, e.spec, e.to) <==> e in EdgesOf(schema, db.rows);
        assert !Has(references, e.spec, e.to);
        if Has(db.references, e.spec, e.to) {
          StoredIsEdge(schema, home, db, e.spec, e.to);
        }
      }
    }
    forall s, to | to in tracked' && Has(db.references, s, to)
      ensures Has(references', s, to)
    {
      StoredIsEdge(schema, home, db, s, to);
    }
  }

  /** A row that is not in the database needs no loading. */
  lemma TrackNew(
    schema: Schema, home: Uuid -> Table, db: Database, references: Index, tracked: map<Uuid, Table>, edges: iset<Edge>, uuid: Uuid)
    requires Sound(schema, home, db) && Tracks(schema, home, db, references, tracked, edges)
    requires uuid !in db.rows
    ensures Tracks(schema, home, db, references, tracked[uuid := home(uuid)], edges)
  {
    if uuid !in tracked {
      forall e: Edge | e.to == uuid
        ensures e.from !in From(references, e.spec, e.to) && e !in edges
      {
        assert !Has(references, e.spec, e.to);
        assert e in edges <==> Refers(schema, db.rows, e);
      }
      forall s | Has(db.references, s, uuid)
        ensures false
      {
        StoredIsEdge(schema, home, db, s, uuid);
      }
    }
  }

  /** Toggling the references of one row, once the rows they are to are tracked. */
  lemma RowToggled(
    schema: Schema, home: Uuid -> Table, db: Database, references: Index, tracked: map<Uuid, Table>, edges: iset<Edge>,
    uuid: Uuid, ch: Change, mods: Index, references': Index)
    requires Tracks(schema, home, db, references, tracked, edges)
    requires ValidChange(schema, home, uuid, ch)
    requires forall e: Edge :: e.from in From(mods, e.spec, e.to) <==>
      e.from == uuid && MaybeRefers(schema, Before(ch), e) != MaybeRefers(schema, After(ch), e)
    requires forall s, to :: Has(mods, s, to) <==> From(mods, s, to) != {}
    requires forall s, to :: Has(mods, s, to) ==> to in tracked
    requires forall s, to :: From(references', s, to) == SymDiff(From(references, s, to), From(mods, s, to))
    requires forall s, to :: Has(references', s, to) <==> Has(references, s, to) || Has(mods, s, to)
    ensures Tracks(schema, home, db, references', tracked, Toggled(schema, edges, map[uuid := ch]))
  {
    var chs := map[uuid := ch];
    var edges' := Toggled(schema, edges, chs);
    forall e: Edge
      ensures e in edges' <==> (e in edges) != (e.from in From(mods, e.spec, e.to))
    {
    }
    forall s, to | Has(mods, s, to)
      ensures s.toTable == home(to) && IsLocation(schema, s)
    {
      ModifiedLocation(schema, home, uuid, ch, mods, s, to);
    }
  }

  lemma ModifiedLocation(schema: Schema, home: Uuid -> Table, uuid: Uuid, ch: Change, mods: Index, s: Spec, to: Uuid)
    requires ValidChange(schema, home, uuid, ch)
    requires forall e: Edge :: e.from in From(mods, e.spec, e.to) <==>
      e.from == uuid && MaybeRefers(schema, Before(ch), e) != MaybeRefers(schema, After(ch), e)
    requires From(mods, s, to) != {}
    ensures s.toTable == home(to) && IsLocation(schema, s)
  {
    var f :| f in From(mods, s, to);
    var e := Edge(s, to, f);
    assert e.from in From(mods, e.spec, e.to);
    assert MaybeRefers(schema, Before(ch), e) || MaybeRefers(schema, After(ch), e);
  }

  function Pairs(rs: Index): set<(Spec, Uuid)> {
    set s, to | s in rs && to in rs[s] :: (s, to)
  }

  lemma ToggledInTurn(schema: Schema, edges: iset<Edge>, chs: Changes, u: Uuid, ch: Change)
    requires u !in chs
    ensures Toggled(schema, Toggled(schema, edges, chs), map[u := ch]) == Toggled(schema, edges, chs[u := ch])
  {
    var (l, r) := (Toggled(schema, Toggled(schema, edges, chs), map[u := ch]), Toggled(schema, edges, chs[u := ch]));
    forall e: Edge
      ensures e in l <==> e in r
    {
    }
  }
}
