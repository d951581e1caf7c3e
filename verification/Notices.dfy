/** Transactions with garbage collection, as a replica sees them: the updates of the transaction and
    of reference processing, table by table (updates/references.go, database/inmemory/inmemory.go,
    server/monitor.go, cache/cache.go). */
module Notices {
  import opened Values
  import opened Difference
  import opened Merge
  import opened References
  import Tracker
  import Collector
  import GarbageCollection
  import opened Levels
  import Rounds
  import Outcomes
  import Commits
  import ModelUpdates
  import Cache
  import Overlay
  import Replication

  // ---- table by table ----

  /** The rows of one table. */
  function TableOf(w: World, t: Table): Cache.Rows {
    map u | u in w && w[u].table == t :: w[u].model
  }

  function ServerOf(schema: Schema, w: World): Replication.Server {
    map t | t in schema.tables :: TableOf(w, t)
  }

  function TablesOf(chs: Tracker.Changes): set<Table> {
    set u | u in chs :: chs[u].table
  }

  function UpdatesOf(chs: Tracker.Changes): ModelUpdates.Updates {
    map t | t in TablesOf(chs) :: map u | u in chs && chs[u].table == t :: chs[u].update
  }

  /** No row that is still there has changed an immutable column. */
  ghost predicate KeepsImmutable(schema: Schema, w: World, w': World) {
    forall u, c :: u in w && u in w' && w[u].table in schema.tables && c in schema.tables[w[u].table] && c in w[u].model &&
                   !schema.tables[w[u].table][c].mutable ==>
      c in w'[u].model && w'[u].model[c] == w[u].model[c]
  }

  /** The replica has the columns of the server's tables. */
  ghost predicate SameColumns(schema: Schema, caches: Replication.Caches) {
    forall t :: t in caches ==> t in schema.tables && caches[t].su.ts == schema.tables[t]
  }

  lemma UpdatesPruned(schema: Schema, home: Uuid -> Table, w: World, chs: Tracker.Changes)
    requires Tracker.ValidChanges(schema, home, w, chs)
    ensures ModelUpdates.Pruned(UpdatesOf(chs))
  {
    var us: ModelUpdates.Updates := UpdatesOf(chs);
    forall t: Table | t in us
      ensures us[t] != map[]
    {
      var u :| u in chs && chs[u].table == t;
      assert u in us[t];
    }
    forall t: Table, u: Uuid | t in us && u in us[t]
      ensures us[t][u].row.Some?
    {
      assert Tracker.ValidChange(schema, home, u, chs[u]);
    }
  }

  /** The update of a row in its table is the change of the row. */
  lemma TableChange(schema: Schema, home: Uuid -> Table, w: World, w': World, chs: Tracker.Changes, t: Table, u: Uuid)
    requires Tracker.ValidWorld(schema, home, w) && Tracker.ValidWorld(schema, home, w')
    requires Tracker.ValidChanges(schema, home, w, chs) && Tracker.Patch(w, chs) == w'
    ensures Summarizes(ModelUpdates.Lookup(UpdatesOf(chs), t, u), At(TableOf(w, t), u), At(TableOf(w', t), u))
  {
    var us := UpdatesOf(chs);
    if u in chs {
      assert Tracker.ValidChange(schema, home, u, chs[u]) && Tracker.Before(chs[u]) == At(w, u);
      assert chs[u].table == home(u);
      if t == home(u) {
        assert t in us && us[t][u] == chs[u].update;
        assert At(TableOf(w, t), u) == chs[u].update.before && At(TableOf(w', t), u) == chs[u].update.after;
      }
    }
  }

  lemma TableMay(schema: Schema, home: Uuid -> Table, w: World, w': World, t: Table, u: Uuid)
    requires Tracker.ValidWorld(schema, home, w) && Tracker.ValidWorld(schema, home, w') && KeepsImmutable(schema, w, w')
    requires t in schema.tables
    ensures Replication.MayChange(schema.tables[t], At(TableOf(w, t), u), At(TableOf(w', t), u))
  {
  }

  /** Changes between valid rows, table by table, are a step that replication can follow. */
  lemma CollectedStep(schema: Schema, home: Uuid -> Table, w: World, w': World, chs: Tracker.Changes, caches: Replication.Caches)
    requires Tracker.ValidWorld(schema, home, w) && Tracker.ValidWorld(schema, home, w') && KeepsImmutable(schema, w, w')
    requires Tracker.ValidChanges(schema, home, w, chs) && Tracker.Patch(w, chs) == w'
    requires SameColumns(schema, caches)
    ensures Replication.ServerStep(caches, UpdatesOf(chs), ServerOf(schema, w), ServerOf(schema, w'))
  {
    var us := UpdatesOf(chs);
    UpdatesPruned(schema, home, w, chs);
    forall t | t in caches
      ensures Replication.TableStep(schema.tables[t], us, t, TableOf(w, t), TableOf(w', t))
    {
      forall u
        ensures Summarizes(ModelUpdates.Lookup(us, t, u), At(TableOf(w, t), u), At(TableOf(w', t), u))
        ensures Replication.MayChange(schema.tables[t], At(TableOf(w, t), u), At(TableOf(w', t), u))
      {
        TableChange(schema, home, w, w', chs, t, u);
        TableMay(schema, home, w, w', t, u);
      }
    }
  }

  // ---- sweeping ----

  /** Sweeping changes no immutable column when nothing is violated. */
  lemma SweptKeeps(schema: Schema, w0: World, C: set<Uuid>, k: nat)
    requires Outcomes.Garbage(schema, w0, C) && C == Gone(schema, w0, k) && !Violates(schema, w0)
    ensures KeepsImmutable(schema, w0, Outcomes.Sweep(schema, w0 - C))
  {
    var final := Outcomes.Sweep(schema, w0 - C);
    forall u, c | u in w0 && u in final && w0[u].table in schema.tables && c in schema.tables[w0[u].table] && c in w0[u].model &&
                  !schema.tables[w0[u].table][c].mutable
      ensures final[u].model[c] == w0[u].model[c]
    {
      UnsweptColumn(schema, w0, C, k, u, c);
    }
  }

  lemma UnsweptColumn(schema: Schema, w0: World, C: set<Uuid>, k: nat, u: Uuid, c: Column)
    requires Outcomes.Garbage(schema, w0, C) && C == Gone(schema, w0, k) && !Violates(schema, w0)
    requires u in w0 && u !in C && w0[u].table in schema.tables && c in schema.tables[w0[u].table] && c in w0[u].model
    requires !schema.tables[w0[u].table][c].mutable
    ensures Outcomes.SweepModel(schema, w0[u], (w0 - C).Keys)[c] == w0[u].model[c]
  {
    var (x, live) := (w0[u], (w0 - C).Keys);
    if GarbageCollection.IsWeakColumn(schema, x.table, c) && x.model[c].SetValue? {
      forall a | a in x.model[c].s && a.UuidAtom?
        ensures a.u in live
      {
        if a.u !in live {
          LostMutable(schema, w0, C, k, u, c, a.u);
        }
      }
    }
  }

  /** A column that loses a reference is mutable. */
  lemma LostMutable(schema: Schema, w0: World, C: set<Uuid>, k: nat, u: Uuid, c: Column, to: Uuid)
    requires Outcomes.Garbage(schema, w0, C) && C == Gone(schema, w0, k) && !Violates(schema, w0)
    requires u in w0 && u !in C && c in w0[u].model && GarbageCollection.IsWeakColumn(schema, w0[u].table, c)
    requires to in Targets(w0[u].model[c]) && to !in (w0 - C).Keys
    ensures schema.tables[w0[u].table][c].mutable
  {
    var e := Edge(Collector.LocationOf(schema, w0[u].table, c), to, u);
    forall j: nat
      ensures u !in Gone(schema, w0, j)
    {
      Outcomes.GoneIsForced(schema, w0, j, C);
    }
    MissingGrows(schema, w0, k, k + 1, to);
    var i := DueSometime(schema, w0, k + 1, e);
    assert to in DueTo(schema, w0, i, u, c);
    assert !ViolatesIn(schema, w0, i);
    assert !ViolatedAt(schema, w0, i, u, c);
  }

  lemma KeepsInTurn(schema: Schema, home: Uuid -> Table, w: World, w1: World, w2: World)
    requires Tracker.ValidWorld(schema, home, w) && Tracker.ValidWorld(schema, home, w1)
    requires KeepsImmutable(schema, w, w1) && KeepsImmutable(schema, w1, w2) && w2.Keys <= w1.Keys
    ensures KeepsImmutable(schema, w, w2)
  {
    forall u, c | u in w && u in w2 && w[u].table in schema.tables && c in schema.tables[w[u].table] && c in w[u].model &&
                  !schema.tables[w[u].table][c].mutable
      ensures c in w2[u].model && w2[u].model[c] == w[u].model[c]
    {
      assert w1[u].table == w[u].table;
      assert c in w1[u].model && w1[u].model[c] == w[u].model[c];
    }
  }

  // ---- end to end ----

  /** Changes that lead from valid rows to valid rows without touching immutable columns. */
  ghost predicate Followable(schema: Schema, home: Uuid -> Table, w: World, w': World, chs: Tracker.Changes) {
    && Tracker.ValidWorld(schema, home, w) && Tracker.ValidWorld(schema, home, w') && KeepsImmutable(schema, w, w')
    && Tracker.ValidChanges(schema, home, w, chs) && Tracker.Patch(w, chs) == w'
  }

  /** What a committed transaction that does not break is to the replica. */
  lemma CommittedStep(rt: Collector.ReferenceTracker, updates: Tracker.Changes, final: World)
    requires rt.Valid() && Outcomes.Committable(rt, updates, final)
    requires Outcomes.Garbage(rt.schema, rt.Requested(), Outcomes.CollectedRows(rt)) && !Violates(rt.schema, rt.Requested())
    requires exists k: nat :: Outcomes.CollectedRows(rt) == Gone(rt.schema, rt.Requested(), k)
    requires final == Outcomes.Sweep(rt.schema, rt.Requested() - Outcomes.CollectedRows(rt))
    requires KeepsImmutable(rt.schema, rt.db.rows, rt.Requested())
    ensures Followable(rt.schema, rt.home, rt.db.rows, final, updates)
  {
    var k: nat :| Outcomes.CollectedRows(rt) == Gone(rt.schema, rt.Requested(), k);
    Tracker.PatchValid(rt.schema, rt.home, rt.db.rows, rt.updates);
    SweptKeeps(rt.schema, rt.Requested(), Outcomes.CollectedRows(rt), k);
    KeepsInTurn(rt.schema, rt.home, rt.db.rows, rt.Requested(), final);
  }

  /** A transaction is processed and, unless it is refused, committed. */
  method ProcessAndCommit(rt: Collector.ReferenceTracker)
    returns (db: Tracker.Database, updates: Tracker.Changes, committed: bool, broken: bool)
    requires Commits.Initial(rt) && KeepsImmutable(rt.schema, rt.db.rows, rt.Requested())
    modifies rt
    ensures committed <==> !Rounds.Refusable(rt.schema, rt.Requested())
    ensures !committed ==> db == rt.db
    ensures broken <==> Commits.LeftBroken(rt.schema, rt.db.rows, rt.updates)
    ensures committed && !broken ==>
      Tracker.Sound(rt.schema, rt.home, db) && Followable(rt.schema, rt.home, rt.db.rows, db.rows, updates)
    ensures !broken ==> Commits.Transacted(rt.schema, rt.db.rows, rt.updates, db.rows)
  {
    db, updates, committed, broken := rt.db, map[], false, false;
    var outcome, spoiled := Commits.ProcessReferences(rt);
    if outcome.Err? {
      return;
    }
    committed, updates, broken := true, outcome.value.0, spoiled;
    db := Commits.Commit(rt, updates);
    if !broken {
      CommittedStep(rt, updates, db.rows);
    }
  }

  /** The updates of a committed transaction are sent and applied. */
  method Notify(
    ghost schema: Schema, ghost home: Uuid -> Table, ghost w: World, ghost w': World, updates: Tracker.Changes, caches: Replication.Caches,
    request: Replication.Requests, ghost hs: Replication.Histories) returns (ghost hs': Replication.Histories)
    requires Followable(schema, home, w, w', updates) && SameColumns(schema, caches)
    requires Replication.ValidCaches(caches, hs) && Replication.Monitoring(request, caches)
    requires Replication.Mirrors(request, ServerOf(schema, w), caches)
    modifies caches.Values
    ensures Replication.ValidCaches(caches, hs') && Replication.Mirrors(request, ServerOf(schema, w'), caches)
  {
    CollectedStep(schema, home, w, w', updates, caches);
    var e;
    e, hs' := Replication.Follow(caches, request, UpdatesOf(updates), ServerOf(schema, w), ServerOf(schema, w'), hs);
  }

  /** What holds between the transactions of a run. */
  ghost predicate Together(
    schema: Schema, home: Uuid -> Table, db: Tracker.Database, caches: Replication.Caches, request: Replication.Requests, hs: Replication.Histories)
    reads caches.Values
  {
    && Tracker.Sound(schema, home, db) && Replication.ValidCaches(caches, hs)
    && Replication.Mirrors(request, ServerOf(schema, db.rows), caches)
  }

  /** A transaction on a database: it is refused, committed, or left alone because it breaks. */
  method CommitUnlessBroken(schema: Schema, ghost home: Uuid -> Table, db: Tracker.Database, chs: Tracker.Changes)
    returns (db': Tracker.Database, updates: Tracker.Changes, committed: bool, broken: bool)
    requires Tracker.Sound(schema, home, db) && Tracker.ValidChanges(schema, home, db.rows, chs)
    requires KeepsImmutable(schema, db.rows, Tracker.Patch(db.rows, chs))
    ensures committed <==> !Rounds.Refusable(schema, Tracker.Patch(db.rows, chs))
    ensures broken <==> Commits.LeftBroken(schema, db.rows, chs)
    ensures broken ==> db' == db
    ensures !broken ==> Commits.Transacted(schema, db.rows, chs, db'.rows)
    ensures Tracker.Sound(schema, home, db') && Followable(schema, home, db.rows, db'.rows, updates)
  {
    var rt := new Collector.ReferenceTracker(schema, home, db, chs);
    db', updates, committed, broken := ProcessAndCommit(rt);
    if !committed || broken {
      db', updates := db, map[];
      NothingFollowed(schema, home, db.rows);
    }
  }

  lemma NothingFollowed(schema: Schema, home: Uuid -> Table, w: World)
    requires Tracker.ValidWorld(schema, home, w)
    ensures Followable(schema, home, w, w, map[])
  {
    assert Tracker.Patch(w, map[]) == w;
  }

  /** One transaction of a run with garbage collection, committed and sent, unless it
      breaks: the replica ends equal to the committed rows on the monitored tables and columns. */
  method NotifyOnce(
    schema: Schema, ghost home: Uuid -> Table, db: Tracker.Database, chs: Tracker.Changes, caches: Replication.Caches,
    request: Replication.Requests, ghost hs: Replication.Histories)
    returns (db': Tracker.Database, broken: bool, ghost hs': Replication.Histories)
    requires Together(schema, home, db, caches, request, hs) && Replication.Monitoring(request, caches) && SameColumns(schema, caches)
    requires Tracker.ValidChanges(schema, home, db.rows, chs) && KeepsImmutable(schema, db.rows, Tracker.Patch(db.rows, chs))
    modifies caches.Values
    ensures Together(schema, home, db', caches, request, hs')
    ensures broken <==> Commits.LeftBroken(schema, db.rows, chs)
    ensures broken ==> db' == db
    ensures !broken ==> Commits.Transacted(schema, db.rows, chs, db'.rows)
  {
    var updates, committed;
    db', updates, committed, broken := CommitUnlessBroken(schema, home, db, chs);
    hs' := Notify(schema, home, db.rows, db'.rows, updates, caches, request, hs);
  }

  /** Replication over any run of transactions with garbage collection: the replica never fails and
      stays equal to the committed rows on the monitored tables and columns.  The run stops short of
      a transaction that breaks. */
  method RunAndNotify(
    schema: Schema, ghost home: Uuid -> Table, db0: Tracker.Database, requests: (nat, World) -> Tracker.Changes, n: nat,
    caches: Replication.Caches, request: Replication.Requests, ghost hs: Replication.Histories)
    returns (db: Tracker.Database, done: nat, ghost trace: seq<World>, ghost hs': Replication.Histories)
    requires Together(schema, home, db0, caches, request, hs) && Replication.Monitoring(request, caches) && SameColumns(schema, caches)
    requires forall i, w :: Tracker.ValidWorld(schema, home, w) ==>
      Tracker.ValidChanges(schema, home, w, requests(i, w)) && KeepsImmutable(schema, w, Tracker.Patch(w, requests(i, w)))
    modifies caches.Values
    ensures Together(schema, home, db, caches, request, hs')
    ensures done <= n && (done < n ==> Commits.LeftBroken(schema, db.rows, requests(done, db.rows)))
    ensures Commits.Traced(schema, requests, db0.rows, trace, done, db.rows)
  {
    db, done, trace, hs' := db0, 0, [db0.rows], hs;
    while done < n
      invariant done <= n && Together(schema, home, db, caches, request, hs')
      invariant Commits.Traced(schema, requests, db0.rows, trace, done, db.rows)
    {
      var broken;
      ghost var w := db.rows;
      db, broken, hs' := NotifyOnce(schema, home, db, requests(done, db.rows), caches, request, hs');
      if broken {
        return;
      }
      Commits.TraceGrows(schema, requests, db0.rows, trace, done, w, db.rows);
      trace := trace + [db.rows];
      done := done + 1;
    }
  }
}
