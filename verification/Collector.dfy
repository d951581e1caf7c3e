/** The reference tracker: processing updates, and the strong and the weak part of a round
    (updates/references.go). */
module Collector {
  import opened Values
  import opened Difference
  import opened Merge
  import opened Mutations
  import opened Operations
  import opened References
  import opened Tracker

  function Deletes(chs: Changes): set<Uuid> {
    set u | u in chs && chs[u].update.after.None?
  }

  function Inserts(chs: Changes): set<Uuid> {
    set u | u in chs && chs[u].update.before.None? && chs[u].update.after.Some?
  }

  /** The location of the references from a column of a row's table. */
  function LocationOf(schema: Schema, table: Table, c: Column): Spec
    requires table in schema.tables && c in schema.tables[table]
  {
    Spec(schema.tables[table][c].refTable, table, c, false)
  }

  /** How many values a reference column holds at least. */
  function MinLength(cs: ColumnSchema): nat {
    if cs.kind.SetKind? then cs.kind.min else 1
  }

  // ---- removing UUIDs from set columns ----

  function UuidAtoms(us: set<Uuid>): set<Atom> {
    set u | u in us :: UuidAtom(u)
  }

  /** The row without the given references. */
  function Removed(m: Model, removals: map<Column, set<Uuid>>): Model {
    map c | c in m :: if c in removals && m[c].SetValue? then SetValue(m[c].s - UuidAtoms(removals[c])) else m[c]
  }

  function DeleteMutations(removals: map<Column, set<Uuid>>, cols: seq<Column>): seq<Mutation>
    requires forall c :: c in cols ==> c in removals
  {
    seq(|cols|, i requires 0 <= i < |cols| => Mutation(cols[i], Delete, SetValue(UuidAtoms(removals[cols[i]]))))
  }

  predicate Removable(ts: TableSchema, m: Model, removals: map<Column, set<Uuid>>)
    requires TypedModel(ts, m)
  {
    forall c :: c in removals ==> c in ts && ts[c].kind.SetKind? && ts[c].kind.t == UuidType
  }

  function Restrict(removals: map<Column, set<Uuid>>, cols: seq<Column>): map<Column, set<Uuid>> {
    map c | c in removals && c in cols :: removals[c]
  }

  /** One delete mutation of a set column. */
  lemma DeleteOne(ts: TableSchema, m: Model, got: map<Column, set<Uuid>>, c: Column, us: set<Uuid>)
    requires TypedModel(ts, m) && TypedModel(ts, Removed(m, got))
    requires c in ts && ts[c].kind.SetKind? && ts[c].kind.t == UuidType && c !in got
    ensures var r := MutateColumn(ts, Removed(m, got), Mutation(c, Delete, SetValue(UuidAtoms(us))));
            && (r.Err? <==> !ts[c].mutable)
            && (r.Ok? ==> r.value == Removed(m, got[c := us]))
  {
    assert HasKind(m[c], ts[c].kind);
    assert HasKind(SetValue(UuidAtoms(us)), ts[c].kind);
  }

  /** The delete mutations of distinct set columns remove exactly the listed references. */
  lemma {:induction false} DeleteAll(ts: TableSchema, m: Model, removals: map<Column, set<Uuid>>, cols: seq<Column>)
    requires TypedModel(ts, m) && Removable(ts, m, removals) && NoDup(cols)
    requires forall c :: c in cols ==> c in removals
    ensures var r := MutateAll(ts, m, DeleteMutations(removals, cols));
            && (r.Err? <==> exists c :: c in cols && !ts[c].mutable)
            && (r.Ok? ==> r.value == Removed(m, Restrict(removals, cols)))
  {
    var mus := DeleteMutations(removals, cols);
    if cols == [] {
      assert Removed(m, Restrict(removals, cols)) == m;
    } else {
      var n := |cols| - 1;
      var (front, last) := (cols[..n], cols[n]);
      assert DeleteMutations(removals, front) == mus[..n];
      assert cols == front + [last];
      DeleteAll(ts, m, removals, front);
      OneMoreColumn(ts, removals, front, last);
      if MutateAll(ts, m, mus[..n]).Ok? {
        DeleteOne(ts, m, Restrict(removals, front), last, removals[last]);
      }
    }
  }

  lemma OneMoreColumn(ts: TableSchema, removals: map<Column, set<Uuid>>, cols: seq<Column>, c: Column)
    requires c in removals && (forall c :: c in removals ==> c in ts) && (forall d :: d in cols ==> d in removals)
    ensures Restrict(removals, cols + [c]) == Restrict(removals, cols)[c := removals[c]]
    ensures (exists d :: d in cols + [c] && !ts[d].mutable) <==> (exists d :: d in cols && !ts[d].mutable) || !ts[c].mutable
  {
    assert c in cols + [c];
    assert forall d :: d in cols + [c] <==> d in cols || d == c;
  }

  method Columns(s: set<Column>) returns (cols: seq<Column>)
    ensures NoDup(cols) && forall c :: c in cols <==> c in s
  {
    cols := [];
    var todo := s;
    while todo != {}
      invariant todo <= s && NoDup(cols)
      invariant forall c :: c in cols <==> c in s && c !in todo
      decreases todo
    {
      var c :| c in todo;
      cols := cols + [c];
      todo := todo - {c};
    }
  }

  /** `updateRow`: the update that removes references from set columns of a row. */
  method UpdateRow(ts: TableSchema, m: Model, removals: map<Column, set<Uuid>>) returns (r: Result<ModelUpdate, TrackError>)
    requires TypedModel(ts, m) && Removable(ts, m, removals)
    ensures r.Err? <==> exists c :: c in removals && !ts[c].mutable
    ensures r.Ok? ==> Summarizes(r.value, Some(m), Some(Removed(m, removals)))
  {
    var cols := Columns(removals.Keys);
    DeleteAll(ts, m, removals, cols);
    assert Restrict(removals, cols) == removals;
    var u := MutateOperation(ts, m, DeleteMutations(removals, cols));
    r := if u.Err? then Err(NotMutableColumn) else Ok(u.value);
  }

  // ---- the tracker ----

  class ReferenceTracker {
    const schema: Schema
    ghost const home: Uuid -> Table
    const db: Database
    const updates: Changes

    var references: Index
    var tracked: map<Uuid, Table>
    var added: map<Uuid, Table>
    var deleted: map<Uuid, Table>

    // all references as far as the updates processed so far go
    ghost var edges: iset<Edge>

    constructor (schema: Schema, ghost home: Uuid -> Table, db: Database, updates: Changes)
      requires Sound(schema, home, db) && ValidChanges(schema, home, db.rows, updates)
      ensures this.schema == schema && this.home == home && this.db == db && this.updates == updates
      ensures Valid() && deleted == map[] && added == map[] && edges == EdgesOf(schema, db.rows)
    {
      this.schema, this.home, this.db, this.updates := schema, home, db, updates;
      references, tracked, added, deleted := map[], map[], map[], map[];
      edges := EdgesOf(schema, db.rows);
      new;
      NothingTracked(schema, home, db);
    }

    ghost predicate Valid()
      reads this
    {
      && Sound(schema, home, db) && ValidChanges(schema, home, db.rows, updates)
      && Tracks(schema, home, db, references, tracked, edges)
      && added.Keys <= tracked.Keys && added.Keys <= Inserts(updates)
      && (forall u :: u in deleted ==> deleted[u] == home(u))
    }

    /** The rows the transaction asks for, before any collection. */
    ghost function Requested(): World {
      Patch(db.rows, updates)
    }

    ghost predicate Live(u: Uuid)
      reads this
    {
      u in Requested() && u !in deleted
    }

    /** `initReferences`: load the stored references to a row once. */
    method InitReferences(table: Table, uuid: Uuid)
      requires Valid() && table == home(uuid)
      modifies this`references, this`tracked
      ensures Valid() && tracked.Keys == old(tracked).Keys + {uuid}
    {
      if uuid in tracked {
        return;
      }
      var existing := GetReferences(db.references, table, uuid);
      var updated := UpdateReferences(references, existing);
      Loaded(schema, home, db, references, tracked, edges, uuid, existing, updated);
      references := updated;
      tracked := tracked[uuid := table];
    }

    method InitReferencesOfDeletedRows()
      requires Valid()
      modifies this`references, this`tracked
      ensures Valid() && old(tracked).Keys <= tracked.Keys && deleted.Keys <= tracked.Keys
    {
      var todo := deleted.Keys;
      while todo != {}
        invariant Valid() && todo <= deleted.Keys
        invariant old(tracked).Keys <= tracked.Keys && deleted.Keys - todo <= tracked.Keys
        decreases todo
      {
        var u :| u in todo;
        InitReferences(deleted[u], u);
        todo := todo - {u};
      }
    }

    /** Load the references to every row that `mods` is about. */
    method InitReferencesOf(mods: Index)
      requires Valid()
      requires forall s, to :: Has(mods, s, to) ==> s.toTable == home(to)
      modifies this`references, this`tracked
      ensures Valid() && old(tracked).Keys <= tracked.Keys
      ensures forall s, to :: Has(mods, s, to) ==> to in tracked
    {
      var todo := Pairs(mods);
      while todo != {}
        invariant Valid() && todo <= Pairs(mods) && old(tracked).Keys <= tracked.Keys
        invariant forall s, to :: Has(mods, s, to) && (s, to) !in todo ==> to in tracked
        decreases todo
      {
        var p :| p in todo;
        assert Has(mods, p.0, p.1);
        InitReferences(p.0.toTable, p.1);
        todo := todo - {p};
      }
    }

    /** Note a deleted row, and an inserted row outside the root set. */
    method Note(uuid: Uuid, ch: Change)
      requires Valid() && ch.table == home(uuid)
      requires ch.update.before.None? ==> uuid !in db.rows && uuid in Inserts(updates)
      modifies this`added, this`deleted, this`tracked
      ensures Valid() && old(tracked).Keys <= tracked.Keys
      ensures deleted.Keys == old(deleted).Keys + if ch.update.after.None? then {uuid} else {}
      ensures old(added).Keys <= added.Keys
      ensures ch.update.before.None? && ch.update.after.Some? && !IsRoot(schema, ch.table) ==> uuid in added
    {
      if ch.update.after.None? {
        deleted := deleted[uuid := ch.table];
      } else if ch.update.before.None? && !IsRoot(schema, ch.table) {
        TrackNew(schema, home, db, references, tracked, edges, uuid);
        added := added[uuid := ch.table];
        tracked := tracked[uuid := ch.table];
      }
    }

    /** Toggle the references of a row that a change adds or removes. */
    method ToggleReferences(uuid: Uuid, ch: Change)
      requires Valid() && ValidChange(schema, home, uuid, ch)
      modifies this`references, this`tracked, this`edges
      ensures Valid() && edges == Toggled(schema, old(edges), map[uuid := ch])
    {
      var mods := UpdateModifications(schema, ch.table, uuid, ch.update);
      forall s, to | Has(mods, s, to)
        ensures s.toTable == home(to)
      {
        ModifiedLocation(schema, home, uuid, ch, mods, s, to);
      }
      InitReferencesOf(mods);
      var toggled := ApplyReferenceModifications(references, mods);
      RowToggled(schema, home, db, references, tracked, edges, uuid, ch, mods, toggled);
      references := toggled;
      edges := Toggled(schema, edges, map[uuid := ch]);
    }

    /** `processRowUpdate`: note what a row update inserts or deletes and toggle the references
        it changes. */
    method ProcessRowUpdate(uuid: Uuid, ch: Change)
      requires Valid() && ValidChange(schema, home, uuid, ch)
      requires ch.update.before.None? ==> uuid !in db.rows && uuid in Inserts(updates)
      modifies this
      ensures Valid() && edges == Toggled(schema, old(edges), map[uuid := ch])
      ensures deleted.Keys == old(deleted).Keys + if ch.update.after.None? then {uuid} else {}
      ensures old(added).Keys <= added.Keys
      ensures ch.update.before.None? && ch.update.after.Some? && !IsRoot(schema, ch.table) ==> uuid in added
    {
      Note(uuid, ch);
      ToggleReferences(uuid, ch);
    }

    method ProcessModelUpdates(batch: Changes)
      requires Valid()
      requires forall u :: u in batch ==> ValidChange(schema, home, u, batch[u])
      requires forall u :: u in batch && batch[u].update.before.None? ==> u !in db.rows && u in Inserts(updates)
      modifies this
      ensures Valid() && edges == Toggled(schema, old(edges), batch)
      ensures Noted(schema, batch, old(deleted).Keys, old(added).Keys, deleted.Keys, added.Keys)
    {
      var todo := batch.Keys;
      ghost var done: Changes := map[];
      NoneToggled(schema, edges, done);
      while todo != {}
        invariant Valid() && todo <= batch.Keys
        invariant done == batch - todo
        invariant edges == Toggled(schema, old(edges), done)
        invariant Noted(schema, done, old(deleted).Keys, old(added).Keys, deleted.Keys, added.Keys)
        decreases todo
      {
        var u :| u in todo;
        label Step:
        ProcessRowUpdate(u, batch[u]);
        ToggledInTurn(schema, old(edges), done, u, batch[u]);
        NotedStep(schema, done, old(deleted).Keys, old(added).Keys, old@Step(deleted).Keys, old@Step(added).Keys,
                  u, batch[u], deleted.Keys, added.Keys);
        TakeOne(batch, todo, u);
        done := done[u := batch[u]];
        todo := todo - {u};
      }
      assert done == batch;
    }

    // ---- strong references ----

    /** `rowExists`: a row is in the updates or the database and not deleted. */
    predicate RowExists(table: Table, to: Uuid)
      reads this
    {
      if to in deleted then false
      else if to in updates && updates[to].table == table && updates[to].update.after.Some? then true
      else to in db.rows && db.rows[to].table == table
    }

    /** The deletions and insertions asked for have been noted. */
    ghost predicate Processed()
      reads this
    {
      && Deletes(updates) <= deleted.Keys
      && forall u :: u in Inserts(updates) && !IsRoot(schema, updates[u].table) ==> u in added
    }

    lemma ExistsIsLive(to: Uuid)
      requires Valid() && Processed()
      ensures RowExists(home(to), to) <==> Live(to)
    {
      if to in updates {
        assert ValidChange(schema, home, to, updates[to]) && Before(updates[to]) == At(db.rows, to);
        assert updates[to].update.after.None? ==> to in Deletes(updates);
      }
    }

    /** A reference is to a live row unless it has been loaded. */
    lemma TrackedOrLive(e: Edge)
      requires Valid() && Processed() && deleted.Keys <= tracked.Keys
      requires e in edges
      ensures e.to in tracked || Live(e.to)
    {
      if e.to !in tracked {
        assert Refers(schema, db.rows, e);
        assert e.to in db.rows && e.to !in Deletes(updates);
      }
    }

    /** Look for strong references to missing rows, and tell for each existing row that has a
        strong entry whether it is still referenced. */
    method CheckStrongReferences() returns (r: Result<map<Uuid, bool>, TrackError>)
      ensures r.Err? <==> exists p :: p in Pairs(references) && MissingTarget(p)
      ensures r.Ok? ==> Tells(schema, references, Existing(Pairs(references)), r.value)
    {
      var isReferenced: map<Uuid, bool> := map[];
      var todo := Pairs(references);
      ghost var done: set<(Spec, Uuid)> := {};
      while todo != {}
        invariant done == Pairs(references) - todo && todo <= Pairs(references)
        invariant Tells(schema, references, Existing(done), isReferenced)
        invariant forall p :: p in done ==> !MissingTarget(p)
        decreases todo
      {
        var p :| p in todo;
        TellsStep(schema, references, Existing(done), isReferenced, p);
        assert Existing(done + {p}) == if RowExists(p.0.toTable, p.1) then Existing(done) + {p} else Existing(done);
        todo := todo - {p};
        done := done + {p};
        if !IsStrong(schema, p.0) {
          continue;
        }
        if !RowExists(p.0.toTable, p.1) {
          if references[p.0][p.1] != {} {
            assert MissingTarget(p);
            return Err(IntegrityViolation);
          }
          continue;
        }
        isReferenced := isReferenced[p.1 := (p.1 in isReferenced && isReferenced[p.1]) || references[p.0][p.1] != {}];
      }
      assert done == Pairs(references);
      r := Ok(isReferenced);
    }

    /** The entry holds strong references to a row that does not exist. */
    ghost predicate MissingTarget(p: (Spec, Uuid))
      reads this
    {
      IsStrong(schema, p.0) && !RowExists(p.0.toTable, p.1) && From(references, p.0, p.1) != {}
    }

    ghost function Existing(ps: set<(Spec, Uuid)>): set<(Spec, Uuid)>
      reads this
    {
      set p | p in ps && RowExists(p.0.toTable, p.1)
    }

    /** What the entries tell about the references of `edges`. */
    lemma AllSeen()
      requires Valid() && Processed() && deleted.Keys <= tracked.Keys
      ensures (exists p :: p in Pairs(references) && MissingTarget(p)) <==>
        exists e: Edge :: IsStrong(schema, e.spec) && e in edges && !Live(e.to)
    {
      if e: Edge :| IsStrong(schema, e.spec) && e in edges && !Live(e.to) {
        TrackedOrLive(e);
        assert e.from in From(references, e.spec, e.to);
        assert Has(references, e.spec, e.to);
        ExistsIsLive(e.to);
        var p := (e.spec, e.to);
        assert p in Pairs(references) && MissingTarget(p);
      }
      if p :| p in Pairs(references) && MissingTarget(p) {
        assert Has(references, p.0, p.1);
        ExistsIsLive(p.1);
        MissingStrong(p.0, p.1);
      }
    }

    lemma SeenIsLive(u: Uuid)
      requires Valid() && Processed()
      ensures Seen(schema, Existing(Pairs(references)), u) ==> Live(u) && u in tracked
      ensures Seen(schema, Existing(Pairs(references)), u) <==> Seen(schema, Pairs(references), u) && Live(u)
      ensures Live(u) && u in tracked ==>
        (SeenReferenced(schema, references, Existing(Pairs(references)), u) <==> StronglyIn(schema, edges, u))
    {
      ExistsIsLive(u);
      forall s | (s, u) in Pairs(references)
        ensures u in tracked && ((s, u) in Existing(Pairs(references)) <==> Live(u))
      {
        assert Has(references, s, u);
      }
      if SeenReferenced(schema, references, Existing(Pairs(references)), u) {
        var s :| (s, u) in Existing(Pairs(references)) && IsStrong(schema, s) && From(references, s, u) != {};
        var f :| f in From(references, s, u);
        var e := Edge(s, u, f);
        assert e.from in From(references, e.spec, e.to);
        assert e in edges;
      }
      if StronglyIn(schema, edges, u) && u in tracked {
        var e: Edge :| IsStrong(schema, e.spec) && e in edges && e.to == u;
        assert e.from in From(references, e.spec, e.to);
        assert (e.spec, u) in Pairs(references);
      }
    }

    lemma MissingStrong(s: Spec, to: Uuid)
      requires Valid() && Has(references, s, to) && references[s][to] != {} && IsStrong(schema, s) && !Live(to)
      ensures exists e: Edge :: IsStrong(schema, e.spec) && e in edges && !Live(e.to)
    {
      var f :| f in references[s][to];
      var e := Edge(s, to, f);
      assert e.from in From(references, e.spec, e.to);
      assert e in edges;
    }

    /** The row as the transaction asks for it. */
    function RequestedRow(u: Uuid): Entry
      requires (u in updates && updates[u].update.after.Some?) || u in db.rows
    {
      if u in updates && updates[u].update.after.Some? then Entry(updates[u].table, updates[u].update.after.value)
      else db.rows[u]
    }

    lemma RequestedRowIs(u: Uuid)
      requires Valid() && Processed() && Live(u)
      ensures (u in updates && updates[u].update.after.Some?) || u in db.rows
      ensures RequestedRow(u) == Requested()[u] && Requested()[u].table == home(u)
    {
      if u in updates {
        assert ValidChange(schema, home, u, updates[u]);
        assert updates[u].update.after.None? ==> u in Deletes(updates);
      }
    }

    /** Delete the rows outside the root set that are no longer referenced. */
    method CollectUnreferenced(isReferenced: map<Uuid, bool>) returns (collected: Changes)
      requires forall u :: u in isReferenced ==> u in tracked && tracked[u] == home(u)
      requires forall u :: u in isReferenced && u !in deleted ==>
        ((u in updates && updates[u].update.after.Some?) || u in db.rows)
      modifies this`deleted
      ensures forall u :: At(deleted, u) == if u in collected then Some(home(u)) else At(old(deleted), u)
      ensures forall u :: u in collected <==> old(Unreferenced(isReferenced, u))
      ensures forall u :: u in collected ==>
        ((u in updates && updates[u].update.after.Some?) || u in db.rows) &&
        collected[u] == Change(home(u), DeleteUpdate(RequestedRow(u).model))
    {
      collected := map[];
      var todo := isReferenced.Keys;
      while todo != {}
        invariant todo <= isReferenced.Keys
        invariant forall u :: At(deleted, u) == if u in collected then Some(home(u)) else At(old(deleted), u)
        invariant forall u :: u in collected <==> u !in todo && old(Unreferenced(isReferenced, u))
        invariant forall u :: u in collected ==>
          ((u in updates && updates[u].update.after.Some?) || u in db.rows) &&
          collected[u] == Change(home(u), DeleteUpdate(RequestedRow(u).model))
        decreases todo
      {
        var u :| u in todo;
        todo := todo - {u};
        if isReferenced[u] || u in deleted || IsRoot(schema, tracked[u]) {
          continue;
        }
        collected := collected[u := Change(tracked[u], DeleteUpdate(RequestedRow(u).model))];
        deleted := deleted[u := tracked[u]];
      }
    }

    ghost predicate Unreferenced(isReferenced: map<Uuid, bool>, u: Uuid)
      reads this
    {
      u in isReferenced && !isReferenced[u] && u !in deleted && !IsRoot(schema, home(u))
    }

    /** A live row outside the root set to which there is no strong reference left has been
        loaded with a strong entry, or was inserted. */
    lemma UnreferencedIsNoted(u: Uuid)
      requires Valid() && Processed() && Live(u) && !IsRoot(schema, home(u)) && !StronglyIn(schema, edges, u)
      ensures u in added || Seen(schema, Pairs(references), u)
    {
      RequestedRowIs(u);
      if u in db.rows {
        assert db.rows[u].table == home(u);
        assert StronglyReferenced(schema, db.rows, u);
        var e: Edge :| IsStrong(schema, e.spec) && Refers(schema, db.rows, e) && e.to == u;
        assert e in EdgesOf(schema, db.rows);
        assert e.from in From(db.references, e.spec, e.to);
        assert Has(references, e.spec, u);
        assert (e.spec, u) in Pairs(references);
      } else {
        assert Before(updates[u]) == At(db.rows, u);
        assert u in Inserts(updates);
      }
    }

    /** Inserted rows outside the root set that nothing refers to are dropped. */
    method NoteAdded(seen: map<Uuid, bool>) returns (isReferenced: map<Uuid, bool>)
      ensures isReferenced.Keys == seen.Keys + added.Keys
      ensures forall u :: u in isReferenced ==> (isReferenced[u] <==> u in seen && seen[u])
    {
      isReferenced := seen;
      var todo := added.Keys;
      while todo != {}
        invariant todo <= added.Keys && isReferenced.Keys == seen.Keys + (added.Keys - todo)
        invariant forall u :: u in isReferenced ==> (isReferenced[u] <==> u in seen && seen[u])
        decreases todo
      {
        var u :| u in todo;
        todo := todo - {u};
        if u in isReferenced && isReferenced[u] {
          continue;
        }
        isReferenced := isReferenced[u := false];
      }
    }

    /** Find out which rows are no longer referenced. */
    method FindUnreferenced() returns (r: Result<map<Uuid, bool>, TrackError>)
      requires Valid() && Processed()
      modifies this`references, this`tracked
      ensures Valid() && Processed()
      ensures r.Err? <==> exists e: Edge :: IsStrong(schema, e.spec) && e in edges && !Live(e.to)
      ensures r.Ok? ==> forall u :: NotedExactly(r.value, u)
    {
      InitReferencesOfDeletedRows();
      AllSeen();
      var checked := CheckStrongReferences();
      if checked.Err? {
        return Err(checked.error);
      }
      var isReferenced := NoteAdded(checked.value);
      forall u
        ensures NotedExactly(isReferenced, u)
      {
        Noting(checked.value, isReferenced, u);
      }
      r := Ok(isReferenced);
    }

    /** `processStrongReferences`: fails exactly when a strong reference is to a missing row;
        otherwise deletes exactly the live rows outside the root set that no strong reference
        is to. */
    method ProcessStrongReferences() returns (r: Result<Changes, TrackError>)
      requires Valid() && Processed()
      modifies this`references, this`tracked, this`deleted
      ensures Valid() && Processed()
      ensures r.Err? <==> exists e: Edge :: IsStrong(schema, e.spec) && e in edges && !old(Live(e.to))
      ensures r.Err? ==> deleted == old(deleted)
      ensures r.Ok? ==> deleted.Keys == old(deleted).Keys + r.value.Keys
      ensures r.Ok? ==> forall u :: Collected(r.value, u, old(Live(u)))
    {
      var found := FindUnreferenced();
      if found.Err? {
        return Err(found.error);
      }
      forall u | u in found.value
        ensures u in tracked && tracked[u] == home(u)
        ensures u !in deleted ==> ((u in updates && updates[u].update.after.Some?) || u in db.rows)
      {
        assert NotedExactly(found.value, u);
      }
      label Collect:
      var collected := CollectUnreferenced(found.value);
      forall u
        ensures Collected(collected, u, old(Live(u)))
      {
        assert old@Collect(NotedExactly(found.value, u));
      }
      KeysAdded(old@Collect(deleted), deleted, collected);
      r := Ok(collected);
    }

    /** The deletion of a row that was live or not. */
    ghost predicate Collected(collected: Changes, u: Uuid, live: bool)
      reads this
    {
      && (u in collected <==> live && !IsRoot(schema, home(u)) && !StronglyIn(schema, edges, u))
      && (u in collected ==> u in Requested() && collected[u] == Change(home(u), DeleteUpdate(Requested()[u].model)))
    }

    lemma KeysAdded(before: map<Uuid, Table>, after: map<Uuid, Table>, collected: Changes)
      requires forall u :: At(after, u) == if u in collected then Some(home(u)) else At(before, u)
      ensures after.Keys == before.Keys + collected.Keys
      ensures forall u :: u in after ==> after[u] == if u in collected then home(u) else before[u]
    {
      forall u
        ensures u in after <==> u in before || u in collected
        ensures u in after ==> after[u] == if u in collected then home(u) else before[u]
      {
        assert At(after, u) == if u in collected then Some(home(u)) else At(before, u);
      }
    }

    /** Row `u` is noted as unreferenced exactly when it is to be deleted. */
    ghost predicate NotedExactly(isReferenced: map<Uuid, bool>, u: Uuid)
      reads this
    {
      && (u in isReferenced ==> u in tracked && tracked[u] == home(u))
      && (u in isReferenced && u !in deleted ==>
            Live(u) && ((u in updates && updates[u].update.after.Some?) || u in db.rows) &&
            RequestedRow(u) == Requested()[u])
      && (Unreferenced(isReferenced, u) <==> Live(u) && !IsRoot(schema, home(u)) && !StronglyIn(schema, edges, u))
    }

    lemma Noting(seen: map<Uuid, bool>, isReferenced: map<Uuid, bool>, u: Uuid)
      requires Valid() && Processed()
      requires Tells(schema, references, Existing(Pairs(references)), seen)
      requires isReferenced.Keys == seen.Keys + added.Keys
      requires u in isReferenced ==> (isReferenced[u] <==> u in seen && seen[u])
      ensures NotedExactly(isReferenced, u)
    {
      SeenIsLive(u);
      if u in added {
        assert u in Inserts(updates);
        assert ValidChange(schema, home, u, updates[u]);
      }
      if Live(u) {
        RequestedRowIs(u);
        if !IsRoot(schema, home(u)) && !StronglyIn(schema, edges, u) {
          UnreferencedIsNoted(u);
        }
        if StronglyIn(schema, edges, u) && u in tracked {
          assert SeenReferenced(schema, references, Existing(Pairs(references)), u);
          var s :| (s, u) in Existing(Pairs(references)) && IsStrong(schema, s) && From(references, s, u) != {};
          assert u in seen;
        }
      }
    }

    // ---- weak references ----

    /** The weak references still held by rows that are not deleted are those of the rows the
        transaction asks for. */
    ghost predicate WeakWithin()
      reads this
    {
      forall e: Edge :: e in edges && IsWeak(schema, e.spec) && e.from !in deleted ==> Refers(schema, Requested(), e)
    }

    /** A weak reference of a live row to a missing row. */
    ghost predicate Pending(e: Edge)
      reads this
    {
      e in edges && IsWeak(schema, e.spec) && Live(e.from) && !Live(e.to)
    }

    /** The missing rows to which column `c` of row `f` refers weakly. */
    ghost function PendingTo(f: Uuid, c: Column): set<Uuid>
      reads this
    {
      if Live(f) && Requested()[f].table in schema.tables && c in schema.tables[Requested()[f].table] && c in Requested()[f].model
      then set to | to in Targets(Requested()[f].model[c]) && Pending(Edge(LocationOf(schema, Requested()[f].table, c), to, f))
      else {}
    }

    /** The row without its weak references to missing rows. */
    ghost function CleanModel(f: Uuid): Model
      requires Live(f)
      reads this
    {
      map c | c in Requested()[f].model ::
        if PendingTo(f, c) != {} && Requested()[f].model[c].SetValue?
        then SetValue(Requested()[f].model[c].s - UuidAtoms(PendingTo(f, c)))
        else Requested()[f].model[c]
    }

    /** A tracked weak reference to be removed. */
    predicate Hit(e: Edge)
      reads this
    {
      IsWeak(schema, e.spec) && e.from !in deleted && !RowExists(e.spec.toTable, e.to)
    }

    predicate HasRow(u: Uuid) {
      (u in updates && updates[u].update.after.Some?) || u in db.rows
    }

    /** Collect, row by row and column by column, the weak references to missing rows, checking
        the length each column is left with. */
    method FindWeakReferences() returns (r: Result<Removals, TrackError>)
      requires forall e :: e in AllEdges(references) && Hit(e) ==> HasRow(e.from)
      ensures r.Err? <==> exists e: Edge :: Violation(e)
      ensures r.Ok? ==> RemovalsAre(r.value, AllHits())
    {
      var removals: Removals := map[];
      var todo := AllEdges(references);
      while todo != {}
        invariant todo <= AllEdges(references)
        invariant Collecting(removals, todo)
        decreases todo
      {
        var e :| e in todo;
        if Hit(e) {
          var tooShort;
          removals, tooShort := CollectRemoval(removals, todo, e);
          if tooShort {
            return Err(ConstraintViolation);
          }
        } else {
          assert AllHits() - (todo - {e}) == AllHits() - todo;
        }
        todo := todo - {e};
      }
      assert AllHits() - todo == AllHits();
      NothingViolated(removals);
      r := Ok(removals);
    }

    /** The removals found while the references of `todo` are still to be looked at. */
    ghost predicate Collecting(removals: Removals, todo: set<Edge>)
      reads this
    {
      RemovalsAre(removals, AllHits() - todo) && LongEnough(removals)
    }

    /** One reference to be removed. */
    method CollectRemoval(removals: Removals, ghost todo: set<Edge>, e: Edge) returns (removals': Removals, tooShort: bool)
      requires Collecting(removals, todo) && e in todo && e in AllHits() && HasRow(e.from)
      ensures tooShort ==> Violation(e)
      ensures !tooShort ==> Collecting(removals', todo - {e})
    {
      ghost var hits := AllHits() - todo;
      RemovalStep(removals, hits, e);
      assert hits + {e} == AllHits() - (todo - {e});
      removals' := AddRemoval(removals, e);
      tooShort := TooShort(RequestedRow(e.from), e.spec.fromColumn, removals'[e.from][e.spec.fromColumn]);
      if tooShort {
        Violated(removals', hits + {e}, e);
      } else {
        StillLongEnough(removals, e);
      }
    }

    ghost function AllHits(): set<Edge>
      reads this
    {
      set e | e in AllEdges(references) && Hit(e)
    }

    /** Removing the references `us` from column `c` leaves it with too few values. */
    predicate TooShort(x: Entry, c: Column, us: set<Uuid>) {
      && x.table in schema.tables && c in schema.tables[x.table] && c in x.model
      && ColumnSize(x.model[c]) - |us| < MinLength(schema.tables[x.table][c])
    }

    /** Removing all hits from the column of a hit leaves it with too few values. */
    ghost predicate Violation(e: Edge)
      reads this
    {
      e in AllHits() && HasRow(e.from) &&
      TooShort(RequestedRow(e.from), e.spec.fromColumn, HitsAt(e.from, e.spec.fromColumn))
    }

    ghost predicate LongEnough(removals: Removals) {
      forall f, c :: f in removals && c in removals[f] ==> HasRow(f) && !TooShort(RequestedRow(f), c, removals[f][c])
    }

    lemma StillLongEnough(removals: Removals, e: Edge)
      requires LongEnough(removals) && HasRow(e.from)
      requires !TooShort(RequestedRow(e.from), e.spec.fromColumn, AddRemoval(removals, e)[e.from][e.spec.fromColumn])
      ensures LongEnough(AddRemoval(removals, e))
    {
    }

    /** The rows of all hits at a column of a row. */
    ghost function HitsAt(f: Uuid, c: Column): set<Uuid>
      reads this
    {
      set e | e in AllHits() && e.from == f && e.spec.fromColumn == c :: e.to
    }

    lemma Violated(removals: Removals, hits: set<Edge>, e: Edge)
      requires RemovalsAre(removals, hits) && hits <= AllHits() && e in hits && HasRow(e.from)
      requires e.from in removals && e.spec.fromColumn in removals[e.from]
      requires TooShort(RequestedRow(e.from), e.spec.fromColumn, removals[e.from][e.spec.fromColumn])
      ensures Violation(e)
    {
      WithinHits(removals, hits, e.from, e.spec.fromColumn);
      SubsetSize(removals[e.from][e.spec.fromColumn], HitsAt(e.from, e.spec.fromColumn));
    }

    lemma NothingViolated(removals: Removals)
      requires RemovalsAre(removals, AllHits()) && LongEnough(removals)
      ensures forall e: Edge :: !Violation(e)
    {
      forall e: Edge | e in AllHits()
        ensures !Violation(e)
      {
        var (f, c) := (e.from, e.spec.fromColumn);
        assert RemovalHas(removals, f, c, e.to);
        WithinHits(removals, AllHits(), f, c);
        assert HitsAt(f, c) <= removals[f][c];
        assert HitsAt(f, c) == removals[f][c];
      }
    }

    lemma WithinHits(removals: Removals, hits: set<Edge>, f: Uuid, c: Column)
      requires RemovalsAre(removals, hits) && hits <= AllHits()
      requires f in removals && c in removals[f]
      ensures removals[f][c] <= HitsAt(f, c)
    {
      forall to | to in removals[f][c]
        ensures to in HitsAt(f, c)
      {
        assert RemovalHas(removals, f, c, to);
        var s :| Edge(s, to, f) in hits && s.fromColumn == c;
      }
    }

    /** The updates that remove the collected references. */
    method UpdateRows(removals: Removals) returns (r: Result<Changes, TrackError>)
      requires forall f :: f in removals ==> RemovableRow(f, removals[f])
      ensures r.Err? <==> exists f, c :: f in removals && c in removals[f] && ImmutableAt(f, c)
      ensures r.Ok? ==> r.value.Keys == removals.Keys
      ensures r.Ok? ==> forall f :: f in removals ==> Cleaning(f, removals[f], r.value[f])
    {
      var updated: Changes := map[];
      var todo := removals.Keys;
      while todo != {}
        invariant todo <= removals.Keys
        invariant updated.Keys == removals.Keys - todo
        invariant forall f :: f in updated ==> Cleaning(f, removals[f], updated[f])
        invariant forall f, c :: f in updated && c in removals[f] ==> !ImmutableAt(f, c)
        decreases todo
      {
        var f :| f in todo;
        todo := todo - {f};
        assert RemovableRow(f, removals[f]);
        var x := RequestedRow(f);
        var u := UpdateRow(schema.tables[x.table], x.model, removals[f]);
        if u.Err? {
          ghost var c :| c in removals[f] && !schema.tables[x.table][c].mutable;
          assert ImmutableAt(f, c);
          return Err(u.error);
        }
        updated := updated[f := Change(x.table, u.value)];
      }
      r := Ok(updated);
    }

    ghost predicate RemovableRow(f: Uuid, removals: map<Column, set<Uuid>>) {
      HasRow(f) &&
      var x := RequestedRow(f);
      x.table in schema.tables && TypedModel(schema.tables[x.table], x.model) &&
      Removable(schema.tables[x.table], x.model, removals)
    }

    ghost predicate ImmutableAt(f: Uuid, c: Column) {
      HasRow(f) &&
      var x := RequestedRow(f);
      x.table in schema.tables && c in schema.tables[x.table] && !schema.tables[x.table][c].mutable
    }

    ghost predicate Cleaning(f: Uuid, removals: map<Column, set<Uuid>>, ch: Change) {
      HasRow(f) &&
      var x := RequestedRow(f);
      ch.table == x.table && Summarizes(ch.update, Some(x.model), Some(Removed(x.model, removals)))
    }

    /** The tracked weak references to be removed are the pending ones. */
    lemma HitIsPending(e: Edge)
      requires Valid() && Processed() && WeakWithin() && deleted.Keys <= tracked.Keys
      ensures e in AllHits() <==> Pending(e)
      ensures Pending(e) ==> HasRow(e.from) && RequestedRow(e.from) == Requested()[e.from]
      ensures Pending(e) ==> RowRefers(schema, Requested()[e.from], e) && ValidEntry(schema, Requested()[e.from])
    {
      PatchValid(schema, home, db.rows, updates);
      ExistsIsLive(e.to);
      if e in AllHits() {
        assert Has(references, e.spec, e.to) && e.from in From(references, e.spec, e.to);
        assert e in edges;
      }
      if Pending(e) {
        TrackedOrLive(e);
        assert e.from in From(references, e.spec, e.to);
        assert Has(references, e.spec, e.to);
        RequestedRowIs(e.from);
      }
    }

    /** The hits at a column are the missing rows it refers to. */
    lemma HitsArePending(f: Uuid, c: Column)
      requires Valid() && Processed() && WeakWithin() && deleted.Keys <= tracked.Keys
      ensures HitsAt(f, c) == PendingTo(f, c)
    {
      forall to | to in HitsAt(f, c)
        ensures to in PendingTo(f, c)
      {
        var e :| e in AllHits() && e.from == f && e.spec.fromColumn == c && e.to == to;
        HitIsPending(e);
        assert e == Edge(LocationOf(schema, Requested()[f].table, c), to, f);
      }
      forall to | to in PendingTo(f, c)
        ensures to in HitsAt(f, c)
      {
        var e := Edge(LocationOf(schema, Requested()[f].table, c), to, f);
        HitIsPending(e);
      }
    }

    /** Without its weak references to missing rows the column is too short. */
    ghost predicate LeftShort(f: Uuid, c: Column)
      reads this
    {
      PendingTo(f, c) != {} && TooShort(Requested()[f], c, PendingTo(f, c))
    }

    /** A column is left too short, or cannot be changed. */
    ghost predicate WeakViolation(f: Uuid, c: Column)
      reads this
    {
      LeftShort(f, c) || (PendingTo(f, c) != {} && !schema.tables[Requested()[f].table][c].mutable)
    }

    /** The weak references of row `f` to missing rows are removed, and nothing else changes. */
    ghost predicate WeaklyCleaned(chs: Changes, f: Uuid)
      reads this
    {
      && (f in chs <==> exists c :: PendingTo(f, c) != {})
      && (f in chs ==>
            && Live(f) && chs[f].table == Requested()[f].table
            && Summarizes(chs[f].update, Some(Requested()[f].model), Some(CleanModel(f))))
    }

    /** The collected removals hold the pending references of a row. */
    ghost predicate RemovesPending(removals: Removals, f: Uuid)
      reads this
    {
      && (forall c :: PendingTo(f, c) != {} <==> f in removals && c in removals[f])
      && (f in removals ==>
            && Live(f) && HasRow(f) && RequestedRow(f) == Requested()[f]
            && removals[f] != map[] && forall c :: c in removals[f] ==> removals[f][c] == PendingTo(f, c))
    }

    /** Once all references were looked at, what is removed from a column are all its hits. */
    lemma RemovalsAreHits(removals: Removals, f: Uuid, c: Column)
      requires RemovalsAre(removals, AllHits())
      ensures HitsAt(f, c) != {} <==> f in removals && c in removals[f]
      ensures f in removals && c in removals[f] ==> removals[f][c] == HitsAt(f, c)
    {
      if f in removals && c in removals[f] {
        WithinHits(removals, AllHits(), f, c);
        forall to | to in HitsAt(f, c)
          ensures to in removals[f][c]
        {
          assert RemovalHas(removals, f, c, to);
        }
      }
      if to :| to in HitsAt(f, c) {
        assert RemovalHas(removals, f, c, to);
      }
    }

    lemma RemovalsPending(removals: Removals, f: Uuid)
      requires Valid() && Processed() && WeakWithin() && deleted.Keys <= tracked.Keys
      requires RemovalsAre(removals, AllHits())
      ensures RemovesPending(removals, f)
    {
      forall c
        ensures PendingTo(f, c) != {} <==> f in removals && c in removals[f]
        ensures f in removals && c in removals[f] ==> removals[f][c] == PendingTo(f, c)
      {
        HitsArePending(f, c);
        RemovalsAreHits(removals, f, c);
      }
      if f in removals {
        var c :| c in removals[f];
        var to :| to in PendingTo(f, c);
        HitIsPending(Edge(LocationOf(schema, Requested()[f].table, c), to, f));
      }
    }

    /** A column with pending references is a set, or is left too short. */
    lemma PendingColumn(f: Uuid, c: Column)
      requires Valid() && PendingTo(f, c) != {}
      ensures var x := Requested()[f];
        ValidEntry(schema, x) && c in x.model && (!TooShort(x, c, PendingTo(f, c)) ==>
          schema.tables[x.table][c].kind.SetKind? && schema.tables[x.table][c].kind.t == UuidType && x.model[c].SetValue?)
    {
      PatchValid(schema, home, db.rows, updates);
      var x := Requested()[f];
      var to :| to in PendingTo(f, c);
      assert IsLocation(schema, LocationOf(schema, x.table, c));
      assert HasKind(x.model[c], schema.tables[x.table][c].kind);
    }

    lemma CleanIsRemoved(removals: Removals, f: Uuid)
      requires RemovesPending(removals, f) && f in removals
      ensures Removed(Requested()[f].model, removals[f]) == CleanModel(f)
    {
      var m := Requested()[f].model;
      var (l, r) := (Removed(m, removals[f]), CleanModel(f));
      forall c | c in m
        ensures l[c] == r[c]
      {
        assert PendingTo(f, c) != {} <==> c in removals[f];
      }
    }

    lemma RowIsRemovable(removals: Removals, f: Uuid)
      requires Valid() && RemovesPending(removals, f) && f in removals
      requires forall c :: !LeftShort(f, c)
      ensures RemovableRow(f, removals[f])
    {
      forall c | c in removals[f]
        ensures var x := Requested()[f];
          ValidEntry(schema, x) && c in x.model &&
          schema.tables[x.table][c].kind.SetKind? && schema.tables[x.table][c].kind.t == UuidType
      {
        PendingColumn(f, c);
        assert !LeftShort(f, c);
      }
      var c :| c in removals[f];
    }

    lemma ViolationIsPending()
      requires Valid() && Processed() && WeakWithin() && deleted.Keys <= tracked.Keys
      ensures (exists e: Edge :: Violation(e)) <==> exists f, c :: LeftShort(f, c)
    {
      if e: Edge :| Violation(e) {
        HitIsPending(e);
        HitsArePending(e.from, e.spec.fromColumn);
        assert e.to in HitsAt(e.from, e.spec.fromColumn);
        assert LeftShort(e.from, e.spec.fromColumn);
      }
      if f, c :| LeftShort(f, c) {
        HitsArePending(f, c);
        var e :| e in AllHits() && e.from == f && e.spec.fromColumn == c;
        HitIsPending(e);
        assert Violation(e);
      }
    }

    /** `processWeakReferences`: fails exactly when some column would be left with fewer values
        than it needs, or is immutable; otherwise removes from every live row exactly the weak
        references to missing rows. */
    method ProcessWeakReferences() returns (r: Result<Changes, TrackError>)
      requires Valid() && Processed() && WeakWithin()
      modifies this`references, this`tracked
      ensures Valid() && Processed() && WeakWithin()
      ensures r.Err? <==> exists f, c :: WeakViolation(f, c)
      ensures r.Ok? ==> forall f :: WeaklyCleaned(r.value, f)
    {
      InitReferencesOfDeletedRows();
      r := CleanWeakReferences();
    }

    method CleanWeakReferences() returns (r: Result<Changes, TrackError>)
      requires Valid() && Processed() && WeakWithin() && deleted.Keys <= tracked.Keys
      ensures r.Err? <==> exists f, c :: WeakViolation(f, c)
      ensures r.Ok? ==> forall f :: WeaklyCleaned(r.value, f)
    {
      forall e | e in AllHits()
        ensures HasRow(e.from)
      {
        HitIsPending(e);
      }
      var removals := FindWeakReferences();
      ViolationIsPending();
      if removals.Err? {
        ghost var f, c :| LeftShort(f, c);
        assert WeakViolation(f, c);
        return Err(removals.error);
      }
      r := RemoveReferences(removals.value);
    }

    ghost predicate RowReady(removals: Removals, f: Uuid)
      reads this
    {
      && RemovesPending(removals, f)
      && (f in removals ==> RemovableRow(f, removals[f]) && Removed(Requested()[f].model, removals[f]) == CleanModel(f))
    }

    method RemoveReferences(removals: Removals) returns (r: Result<Changes, TrackError>)
      requires Valid() && Processed() && WeakWithin() && deleted.Keys <= tracked.Keys
      requires RemovalsAre(removals, AllHits())
      requires forall f, c :: !LeftShort(f, c)
      ensures r.Err? <==> exists f, c :: WeakViolation(f, c)
      ensures r.Ok? ==> forall f :: WeaklyCleaned(r.value, f)
    {
      forall f
        ensures RowReady(removals, f)
      {
        RemovalsPending(removals, f);
        if f in removals {
          RowIsRemovable(removals, f);
          CleanIsRemoved(removals, f);
        }
      }
      assert forall f :: f in removals ==> RowReady(removals, f) && RemovableRow(f, removals[f]);
      r := UpdateRows(removals);
      ImmutableIsViolation(removals);
      if r.Ok? {
        forall f
          ensures WeaklyCleaned(r.value, f)
        {
          IsCleaned(removals, r.value, f);
        }
      }
    }

    lemma IsCleaned(removals: Removals, chs: Changes, f: Uuid)
      requires RowReady(removals, f) && chs.Keys == removals.Keys
      requires f in removals ==> Cleaning(f, removals[f], chs[f])
      ensures WeaklyCleaned(chs, f)
    {
      if f in removals {
        var c :| c in removals[f];
        assert PendingTo(f, c) != {};
      }
    }

    lemma ImmutableIsViolation(removals: Removals)
      requires forall f :: RowReady(removals, f)
      requires forall f, c :: !LeftShort(f, c)
      ensures (exists f, c :: f in removals && c in removals[f] && ImmutableAt(f, c)) <==> exists f, c :: WeakViolation(f, c)
    {
      if f, c :| f in removals && c in removals[f] && ImmutableAt(f, c) {
        assert RowReady(removals, f);
        assert PendingTo(f, c) != {};
        assert WeakViolation(f, c);
      }
      if f, c :| WeakViolation(f, c) {
        assert RowReady(removals, f) && !LeftShort(f, c);
        assert ImmutableAt(f, c);
      }
    }
  }

  // ---- removals ----

  /** For each row and column, the references to remove. */
  type Removals = map<Uuid, map<Column, set<Uuid>>>

  predicate RemovalHas(rem: Removals, f: Uuid, c: Column, to: Uuid) {
    f in rem && c in rem[f] && to in rem[f][c]
  }

  function AddRemoval(rem: Removals, e: Edge): (r: Removals)
    ensures e.from in r && e.spec.fromColumn in r[e.from]
  {
    var row := if e.from in rem then rem[e.from] else map[];
    var tos := if e.spec.fromColumn in row then row[e.spec.fromColumn] else {};
    rem[e.from := row[e.spec.fromColumn := tos + {e.to}]]
  }

  /** The removals are those of the references `hits`, without empty entries. */
  ghost predicate RemovalsAre(rem: Removals, hits: set<Edge>) {
    && (forall e :: e in hits ==> RemovalHas(rem, e.from, e.spec.fromColumn, e.to))
    && (forall f, c, to :: RemovalHas(rem, f, c, to) ==> exists s :: Edge(s, to, f) in hits && s.fromColumn == c)
    && (forall f :: f in rem ==> rem[f] != map[])
    && (forall f, c :: f in rem && c in rem[f] ==> rem[f][c] != {})
  }

  lemma RemovalStep(rem: Removals, hits: set<Edge>, e: Edge)
    requires RemovalsAre(rem, hits)
    ensures RemovalsAre(AddRemoval(rem, e), hits + {e})
  {
    var (rem', hits') := (AddRemoval(rem, e), hits + {e});
    forall f, c, to
      ensures RemovalHas(rem', f, c, to) <==> RemovalHas(rem, f, c, to) || (f == e.from && c == e.spec.fromColumn && to == e.to)
    {
    }
    forall f, c, to | RemovalHas(rem', f, c, to)
      ensures exists s :: Edge(s, to, f) in hits' && s.fromColumn == c
    {
      if RemovalHas(rem, f, c, to) {
        var s :| Edge(s, to, f) in hits && s.fromColumn == c;
        assert Edge(s, to, f) in hits';
      } else {
        assert Edge(e.spec, to, f) in hits';
      }
    }
    assert e.spec.fromColumn in rem'[e.from];
  }

  function AllEdges(rs: Index): set<Edge> {
    set s, to, f | s in rs && to in rs[s] && f in rs[s][to] :: Edge(s, to, f)
  }

  lemma SubsetSize<T>(a: set<T>, b: set<T>)
    requires a <= b
    ensures |a| <= |b|
  {
    assert b == a + (b - a);
  }

  function ColumnSize(v: Value): nat {
    if v.SetValue? then |v.s| else 1
  }

  /** Row `u` has a strong entry, or a strong entry with references, among the entries `done`. */
  ghost predicate Seen(schema: Schema, done: set<(Spec, Uuid)>, u: Uuid) {
    exists s :: (s, u) in done && IsStrong(schema, s)
  }

  ghost predicate SeenReferenced(schema: Schema, references: Index, done: set<(Spec, Uuid)>, u: Uuid) {
    exists s :: (s, u) in done && IsStrong(schema, s) && From(references, s, u) != {}
  }

  ghost predicate StronglyIn(schema: Schema, edges: iset<Edge>, u: Uuid) {
    exists e: Edge :: IsStrong(schema, e.spec) && e in edges && e.to == u
  }

  lemma SeenStep(schema: Schema, references: Index, done: set<(Spec, Uuid)>, s: Spec, to: Uuid)
    ensures forall u :: Seen(schema, done + {(s, to)}, u) <==> Seen(schema, done, u) || (u == to && IsStrong(schema, s))
    ensures forall u :: SeenReferenced(schema, references, done + {(s, to)}, u) <==>
      SeenReferenced(schema, references, done, u) || (u == to && IsStrong(schema, s) && From(references, s, to) != {})
  {
    var done' := done + {(s, to)};
    assert (s, to) in done';
    forall u
      ensures Seen(schema, done', u) <==> Seen(schema, done, u) || (u == to && IsStrong(schema, s))
      ensures SeenReferenced(schema, references, done', u) <==>
        SeenReferenced(schema, references, done, u) || (u == to && IsStrong(schema, s) && From(references, s, to) != {})
    {
      if Seen(schema, done, u) {
        var s' :| (s', u) in done && IsStrong(schema, s');
        assert (s', u) in done';
      }
      if SeenReferenced(schema, references, done, u) {
        var s' :| (s', u) in done && IsStrong(schema, s') && From(references, s', u) != {};
        assert (s', u) in done';
      }
    }
  }

  /** `isReferenced` tells of the rows with strong entries whether they are referenced. */
  ghost predicate Tells(schema: Schema, references: Index, ps: set<(Spec, Uuid)>, isReferenced: map<Uuid, bool>) {
    && (forall u :: u in isReferenced <==> Seen(schema, ps, u))
    && (forall u :: u in isReferenced ==> (isReferenced[u] <==> SeenReferenced(schema, references, ps, u)))
  }

  lemma TellsStep(schema: Schema, references: Index, ps: set<(Spec, Uuid)>, isReferenced: map<Uuid, bool>, p: (Spec, Uuid))
    requires Tells(schema, references, ps, isReferenced)
    ensures var before := p.1 in isReferenced && isReferenced[p.1];
            Tells(schema, references, ps + {p},
                  if IsStrong(schema, p.0) then isReferenced[p.1 := before || From(references, p.0, p.1) != {}] else isReferenced)
  {
    SeenStep(schema, references, ps, p.0, p.1);
    assert SeenReferenced(schema, references, ps, p.1) ==> Seen(schema, ps, p.1);
  }

  lemma TakeOne<K, V>(m: map<K, V>, todo: set<K>, k: K)
    requires k in todo && todo <= m.Keys
    ensures (m - todo)[k := m[k]] == m - (todo - {k})
  {
  }

  lemma NoneToggled(schema: Schema, edges: iset<Edge>, chs: Changes)
    requires chs == map[]
    ensures Toggled(schema, edges, chs) == edges
  {
  }

  /** The rows that the changes delete and insert have been noted. */
  ghost predicate Noted(
    schema: Schema, chs: Changes, deleted0: set<Uuid>, added0: set<Uuid>, deleted: set<Uuid>, added: set<Uuid>)
  {
    && deleted == deleted0 + Deletes(chs)
    && added0 <= added
    && forall u :: u in chs && u in Inserts(chs) && !IsRoot(schema, chs[u].table) ==> u in added
  }

  lemma NotedStep(
    schema: Schema, chs: Changes, deleted0: set<Uuid>, added0: set<Uuid>, deleted: set<Uuid>, added: set<Uuid>,
    u: Uuid, ch: Change, deleted': set<Uuid>, added': set<Uuid>)
    requires Noted(schema, chs, deleted0, added0, deleted, added) && u !in chs
    requires deleted' == deleted + (if ch.update.after.None? then {u} else {})
    requires added <= added'
    requires ch.update.before.None? && ch.update.after.Some? && !IsRoot(schema, ch.table) ==> u in added'
    ensures Noted(schema, chs[u := ch], deleted0, added0, deleted', added')
  {
    var chs' := chs[u := ch];
    assert Deletes(chs') == Deletes(chs) + if ch.update.after.None? then {u} else {};
    forall v | v in chs' && v in Inserts(chs') && !IsRoot(schema, chs'[v].table)
      ensures v in added'
    {
      assert v != u ==> v in Inserts(chs);
    }
  }
}
