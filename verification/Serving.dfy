/** A server and its replica, end to end: the operations of a transaction on any tables are performed,
    references are processed, and the outcome is committed, filtered, sent and applied
    (database/transaction/transaction.go, updates/references.go, database/inmemory/inmemory.go,
    server/server.go, server/monitor.go, cache/cache.go). */
module Serving {
  import opened Values
  import opened Difference
  import opened ModelUpdates
  import opened Cache
  import opened Overlay
  import opened Replication
  import opened Tables
  import References
  import Tracker
  import Rounds
  import Outcomes
  import Commits
  import Notices
  import Query
  import Worlds

  type Setups = map<Table, Setup>

  // ---- what a transaction means ----

  /** The tables after their operations. */
  ghost function AfterTables(sus: Setups, rows: Server, steps: seq<Step>): Server {
    map t | t in rows ::
      if t in sus && AllTyped(sus[t].ts, rows[t]) then AfterAll(sus[t].ts, rows[t], OpsOn(steps, t)) else rows[t]
  }

  ghost function AllRows(s: Server): References.World {
    if Worlds.Separate(s) then Worlds.WorldOf(s) else map[]
  }

  /** An operation fails, a row refers strongly to a missing row, or a column cannot lose the weak
      references it has to. */
  ghost predicate JobRefused(schema: References.Schema, sus: Setups, rows: Server, steps: seq<Step>) {
    SomeStepFails(sus, rows, steps, |steps|) || Rounds.Refusable(schema, AllRows(AfterTables(sus, rows, steps)))
  }

  /** The transaction would leave rows and stored references that disagree. */
  ghost predicate Breaking(schema: References.Schema, sus: Setups, rows: Server, steps: seq<Step>) {
    && !JobRefused(schema, sus, rows, steps)
    && Outcomes.Breaks(schema, AllRows(rows), AllRows(AfterTables(sus, rows, steps)))
  }

  /** The rows after a transaction: those it starts from when it is refused, and otherwise what its
      operations make of them, without the garbage and weak references to missing rows. */
  ghost function AfterJob(schema: References.Schema, sus: Setups, rows: Server, steps: seq<Step>): Server {
    if JobRefused(schema, sus, rows, steps) then rows else SweptTables(schema, AllRows(AfterTables(sus, rows, steps)))
  }

  ghost function SweptTables(schema: References.Schema, w: References.World): Server {
    Notices.ServerOf(schema, Outcomes.Sweep(schema, w - Outcomes.GarbageOf(schema, w)))
  }

  // ---- the server ----

  /** The tables are in order, and so are the stored references. */
  ghost predicate InOrder(
    schema: References.Schema, home: Uuid -> Table, servers: Caches, references: References.Index, sh: Histories)
    reads servers.Values
  {
    Disarray(schema, home, servers, references, sh) == {}
  }

  /** The stored references, unless all is in order. */
  ghost function Disarray(
    schema: References.Schema, home: Uuid -> Table, servers: Caches, references: References.Index, sh: Histories): set<References.Index>
    reads servers.Values
  {
    if && ValidCaches(servers, sh) && Worlds.ServerOk(schema, home, Contents(servers))
       && Unsound(schema, home, Tracker.Database(AllRows(Contents(servers)), references)) == {}
    then {} else {references}
  }

  lemma InOrderSo(schema: References.Schema, home: Uuid -> Table, servers: Caches, references: References.Index, sh: Histories)
    ensures InOrder(schema, home, servers, references, sh) <==>
      && ValidCaches(servers, sh) && Worlds.ServerOk(schema, home, Contents(servers))
      && Unsound(schema, home, Tracker.Database(AllRows(Contents(servers)), references)) == {}
  {
  }

  /** The database, unless it is sound. */
  ghost function Unsound(schema: References.Schema, home: Uuid -> Table, db: Tracker.Database): set<Tracker.Database> {
    if Tracker.Sound(schema, home, db) then {} else {db}
  }

  /** Server and replica have the columns of the schema, and share no objects. */
  ghost predicate Matched(schema: References.Schema, servers: Caches, replicas: Caches) {
    && References.RefSchema(schema) && servers.Keys == schema.tables.Keys && servers.Values !! replicas.Values
    && Notices.SameColumns(schema, servers) && Notices.SameColumns(schema, replicas)
  }

  /** The operations are on known tables, insert new rows and keep references in order. */
  ghost predicate SensibleJob(schema: References.Schema, home: Uuid -> Table, rows: Server, steps: seq<Step>) {
    Foolish(schema, home, steps) == {} && Reinserting(rows, steps) == {}
  }

  /** The operations that are on unknown tables or put references out of order. */
  ghost function Foolish(schema: References.Schema, home: Uuid -> Table, steps: seq<Step>): set<int> {
    set i | 0 <= i < |steps| && !StepOk(schema, home, steps[i])
  }

  /** The tables with inserts of known rows. */
  ghost function Reinserting(rows: Server, steps: seq<Step>): set<Table> {
    set t | t in rows && !FreshInserts(rows[t], OpsOn(steps, t))
  }

  ghost predicate StepOk(schema: References.Schema, home: Uuid -> Table, step: Step) {
    step.table in schema.tables && Worlds.OperationOk(home, step.table, schema.tables[step.table], step.op)
  }

  /** The queries of the operations are proper and can be answered through indexes. */
  ghost predicate Foreseen(servers: Caches, steps: seq<Step>)
    reads servers.Values
  {
    AllPlannable(servers, steps) && AllProper(SetupsOf(servers), steps)
  }

  /** No rows but those of before and the inserted ones. */
  ghost predicate GainsOnly(from: Server, steps: seq<Step>, to: Server) {
    to.Keys == from.Keys && Grown(from, steps, to) == {}
  }

  ghost function Grown(from: Server, steps: seq<Step>, to: Server): set<Table> {
    set t | t in to && !(t in from && to[t].Keys <= from[t].Keys + Inserted(OpsOn(steps, t)))
  }

  lemma FitCaches(schema: References.Schema, home: Uuid -> Table, servers: Caches, sh: Histories)
    requires ValidCaches(servers, sh) && Worlds.ServerOk(schema, home, Contents(servers)) && Notices.SameColumns(schema, servers)
    ensures ReadyCaches(servers) && OutOfOrder(servers, home) == {}
  {
    forall t | t in servers
      ensures servers[t].Valid() && AllNormal(servers[t].cache) && Worlds.RowsOk(home, t, servers[t].su.ts, servers[t].cache)
    {
      assert Tracked(servers[t], sh[t]);
      Worlds.OkAt(schema, home, Contents(servers), t);
    }
  }

  lemma SensiblePlan(schema: References.Schema, home: Uuid -> Table, servers: Caches, steps: seq<Step>)
    requires References.RefSchema(schema) && servers.Keys == schema.tables.Keys && Notices.SameColumns(schema, servers)
    requires SensibleJob(schema, home, Contents(servers), steps)
    ensures Sensible(SetupsOf(servers), PlanOf(servers, home, steps))
  {
    var (sus, p) := (SetupsOf(servers), PlanOf(servers, home, steps));
    forall i | 0 <= i < |p.steps|
      ensures SensibleStep(sus, home, p.steps[i])
    {
      assert i !in Foolish(schema, home, steps);
    }
    forall t | t in sus
      ensures SensibleTable(sus[t], p, t)
    {
      assert sus[t].ts == schema.tables[t] && t !in Reinserting(Contents(servers), steps);
      assert p.planned ==> t !in Unplannable(servers, steps);
    }
  }

  lemma SeenAt(schema: References.Schema, sus: Setups, p: Plan, views: Server, t: Table)
    requires AllTransacted(sus, p, views) && t in views && t in sus && t in schema.tables && sus[t].ts == schema.tables[t]
    ensures t in p.rows && Worlds.RowsOk(p.home, t, schema.tables[t], views[t]) && AllPermitted(schema.tables[t], p.rows[t], views[t])
    ensures views[t].Keys <= p.rows[t].Keys + Inserted(OpsOn(p.steps, t)) && AllTyped(sus[t].ts, p.rows[t])
    ensures p.planned ==> views[t] == AfterAll(sus[t].ts, p.rows[t], OpsOn(p.steps, t))
  {
    assert t !in Untransacted(sus, p, views);
  }

  lemma TablesSeen(schema: References.Schema, sus: Setups, p: Plan, views: Server)
    requires sus.Keys == schema.tables.Keys && views.Keys == sus.Keys && p.rows.Keys == sus.Keys
    requires (forall t :: t in sus ==> sus[t].ts == schema.tables[t]) && AllTransacted(sus, p, views)
    ensures Worlds.ServerOk(schema, p.home, views) && Worlds.TablesPermitted(schema, p.rows, views) && GainsOnly(p.rows, p.steps, views)
  {
    forall t | t in views
      ensures Worlds.RowsOk(p.home, t, schema.tables[t], views[t]) && AllPermitted(schema.tables[t], p.rows[t], views[t])
      ensures views[t].Keys <= p.rows[t].Keys + Inserted(OpsOn(p.steps, t))
    {
      SeenAt(schema, sus, p, views, t);
    }
  }

  lemma SeenAsMeant(schema: References.Schema, sus: Setups, p: Plan, views: Server)
    requires sus.Keys == schema.tables.Keys && views.Keys == sus.Keys && p.rows.Keys == sus.Keys && p.planned
    requires (forall t :: t in sus ==> sus[t].ts == schema.tables[t]) && AllTransacted(sus, p, views)
    ensures views == AfterTables(sus, p.rows, p.steps)
  {
    forall t | t in views
      ensures views[t] == AfterTables(sus, p.rows, p.steps)[t]
    {
      SeenAt(schema, sus, p, views, t);
    }
  }

  /** The operations of a transaction on a server in order. */
  method Operate(
    schema: References.Schema, ghost home: Uuid -> Table, servers: Caches, steps: seq<Step>, ghost from: Server, ghost foreseen: bool,
    ghost sh: Histories)
    returns (us: Updates, e: Option<TxnError>, ghost views: Server)
    requires References.RefSchema(schema) && servers.Keys == schema.tables.Keys && Notices.SameColumns(schema, servers)
    requires ValidCaches(servers, sh) && Worlds.ServerOk(schema, home, from) && from == Contents(servers)
    requires SensibleJob(schema, home, from, steps) && (foreseen ==> Foreseen(servers, steps))
    ensures e.None? ==> Worlds.LeadsTo(us, from, views) && Worlds.ServerOk(schema, home, views)
    ensures e.None? ==> Worlds.TablesPermitted(schema, from, views) && GainsOnly(from, steps, views)
    ensures foreseen && e.None? ==> views == AfterTables(SetupsOf(servers), from, steps)
    ensures foreseen ==> (e.Some? <==> SomeStepFails(SetupsOf(servers), from, steps, |steps|))
  {
    FitCaches(schema, home, servers, sh);
    SensiblePlan(schema, home, servers, steps);
    ghost var p := PlanOf(servers, home, steps);
    us, e, views := Transact(servers, p, steps, AllProper(SetupsOf(servers), steps));
    if e.None? {
      TablesSeen(schema, SetupsOf(servers), p, views);
      if p.planned {
        SeenAsMeant(schema, SetupsOf(servers), p, views);
      }
    }
  }

  /** References are processed for the updates of all tables. */
  method Process(
    schema: References.Schema, ghost home: Uuid -> Table, db: Tracker.Database, us: Updates, ghost from: Server, ghost to: Server)
    returns (db': Tracker.Database, updates: Tracker.Changes, committed: bool, broken: bool)
    requires Tracker.Sound(schema, home, db) && db.rows == AllRows(from) && Worlds.LeadsTo(us, from, to)
    requires Worlds.ServerOk(schema, home, from) && Worlds.ServerOk(schema, home, to) && Worlds.TablesPermitted(schema, from, to)
    ensures committed <==> !Rounds.Refusable(schema, AllRows(to))
    ensures broken <==> committed && Outcomes.Breaks(schema, AllRows(from), AllRows(to))
    ensures Tracker.Sound(schema, home, db') && Notices.Followable(schema, home, db.rows, db'.rows, updates)
    ensures !committed || broken ==> db' == db
    ensures committed && !broken ==> db'.rows == Outcomes.Sweep(schema, AllRows(to) - Outcomes.GarbageOf(schema, AllRows(to)))
  {
    Worlds.ChangesLead(schema, home, us, from, to);
    Worlds.KeepsInTables(schema, home, from, to);
    db', updates, committed, broken := Notices.CommitUnlessBroken(schema, home, db, Worlds.ChangesOf(us));
    if !committed || broken {
      db', updates := db, map[];
      Notices.NothingFollowed(schema, home, db.rows);
    } else {
      OneOutcome(schema, db.rows, Worlds.ChangesOf(us), db'.rows);
    }
  }

  lemma OneOutcome(schema: References.Schema, w: References.World, chs: Tracker.Changes, w': References.World)
    requires Commits.Transacted(schema, w, chs, w') && !Rounds.Refusable(schema, Tracker.Patch(w, chs))
    ensures var w0 := Tracker.Patch(w, chs); w' == Outcomes.Sweep(schema, w0 - Outcomes.GarbageOf(schema, w0))
  {
    var w0 := Tracker.Patch(w, chs);
    var C :| Outcomes.Garbage(schema, w0, C) && w' == Outcomes.Sweep(schema, w0 - C);
    Outcomes.GarbageExists(schema, w0);
    Outcomes.GarbageIsUnique(schema, w0, C, Outcomes.GarbageOf(schema, w0));
  }

  // ---- writing ----

  /** One cache while tables are written, with the versions it has held. */
  ghost predicate WritingAt(server: RowCache, h: Versions, h': Versions, from: Rows, to: Rows, done: bool)
    reads server
  {
    Tracked(server, h') && h' <= h + Present(to) && server.cache == if done then to else from
  }

  /** The tables that are not as they should be when those of `todo` are still to be written. */
  ghost function Unwritten(servers: Caches, sh: Histories, sh': Histories, from: Server, to: Server, todo: set<Table>): set<Table>
    reads servers.Values
  {
    set t | t in servers &&
      !(t in sh && t in sh' && t in from && t in to && WritingAt(servers[t], sh[t], sh'[t], from[t], to[t], t !in todo))
  }

  ghost predicate Distinct(servers: Caches) {
    forall t, t' :: t in servers && t' in servers && servers[t] == servers[t'] ==> t == t'
  }

  method WriteTable(
    servers: Caches, us: Updates, t: Table, ghost sh: Histories, ghost sh': Histories, ghost from: Server, ghost to: Server,
    ghost todo: set<Table>) returns (ghost sh'': Histories)
    requires Distinct(servers) && t in servers && t in todo && Unwritten(servers, sh, sh', from, to, todo) == {}
    requires t in to && AllTyped(servers[t].su.ts, to[t]) && t in from && Accumulated(us, t, from[t], to[t])
    modifies servers[t]
    ensures Unwritten(servers, sh, sh'', from, to, todo - {t}) == {}
  {
    ghost var before := Unwritten(servers, sh, sh', from, to, todo);
    assert t !in before;
    ghost var h := CommitUpdates(servers[t], us, t, to[t], sh'[t]);
    sh'' := sh'[t := h];
    forall t' | t' in servers
      ensures t' in sh && t' in sh'' && t' in from && t' in to
      ensures WritingAt(servers[t'], sh[t'], sh''[t'], from[t'], to[t'], t' !in todo - {t})
    {
      if t' != t {
        assert t' !in before && servers[t'] != servers[t];
      }
    }
  }

  /** The tables that the updates do not lead to their new rows. */
  ghost function Unwritable(servers: Caches, us: Updates, to: Server): set<Table>
    reads servers.Values
  {
    set t | t in servers && !(t in to && AllTyped(servers[t].su.ts, to[t]) && Accumulated(us, t, servers[t].cache, to[t]))
  }

  /** The updates of all tables are written to the caches of the server, which never fails. */
  method WriteTables(servers: Caches, us: Updates, ghost to: Server, ghost sh: Histories) returns (ghost sh': Histories)
    requires ValidCaches(servers, sh) && to.Keys == servers.Keys
    requires Unwritable(servers, us, to) == {}
    modifies servers.Values
    ensures Unwritten(servers, sh, sh', old(Contents(servers)), to, {}) == {}
  {
    ghost var (from, unwritable) := (Contents(servers), Unwritable(servers, us, to));
    forall t | t in servers
      ensures AllTyped(servers[t].su.ts, to[t]) && Accumulated(us, t, from[t], to[t])
    {
      assert t !in unwritable;
    }
    sh' := sh;
    var todo := servers.Keys;
    while todo != {}
      invariant todo <= servers.Keys && Unwritten(servers, sh, sh', from, to, todo) == {}
      decreases todo
    {
      var t :| t in todo;
      sh' := WriteTable(servers, us, t, sh, sh', from, to, todo);
      todo := todo - {t};
    }
  }

  /** The caches have held no versions but those of before and the ones they hold now. */
  ghost predicate Bounded(sh: Histories, sh': Histories, now: Server) {
    forall t :: t in now ==> t in sh && t in sh' && sh'[t] <= sh[t] + Present(now[t])
  }

  lemma TablesWritten(servers: Caches, sh: Histories, sh': Histories, from: Server, to: Server)
    requires Distinct(servers) && to.Keys == servers.Keys && Unwritten(servers, sh, sh', from, to, {}) == {}
    ensures ValidCaches(servers, sh') && Contents(servers) == to && Bounded(sh, sh', to)
  {
    forall t | t in servers
      ensures t in sh && t in sh' && Tracked(servers[t], sh'[t]) && servers[t].cache == to[t] && sh'[t] <= sh[t] + Present(to[t])
    {
      assert t !in Unwritten(servers, sh, sh', from, to, {});
    }
  }

  /** What the changes are for the tables of the server. */
  lemma WritableAt(
    schema: References.Schema, home: Uuid -> Table, w: References.World, w': References.World, updates: Tracker.Changes,
    servers: Caches, t: Table)
    requires Notices.Followable(schema, home, w, w', updates) && Notices.SameColumns(schema, servers) && t in servers
    ensures t in schema.tables && AllTyped(servers[t].su.ts, Notices.TableOf(w', t))
    ensures Accumulated(Notices.UpdatesOf(updates), t, Notices.TableOf(w, t), Notices.TableOf(w', t))
  {
    Notices.CollectedStep(schema, home, w, w', updates, servers);
    Worlds.ValidWorldIsOk(schema, home, w');
    var s := Notices.ServerOf(schema, w');
    Worlds.OkAt(schema, home, s, t);
  }

  lemma AllWritable(
    schema: References.Schema, home: Uuid -> Table, w: References.World, w': References.World, updates: Tracker.Changes, servers: Caches)
    requires Notices.Followable(schema, home, w, w', updates) && Notices.SameColumns(schema, servers)
    requires Contents(servers) == Notices.ServerOf(schema, w)
    ensures Unwritable(servers, Notices.UpdatesOf(updates), Notices.ServerOf(schema, w')) == {}
  {
    var (us, to) := (Notices.UpdatesOf(updates), Notices.ServerOf(schema, w'));
    forall t | t in servers
      ensures t in to && AllTyped(servers[t].su.ts, to[t]) && Accumulated(us, t, servers[t].cache, to[t])
    {
      WritableAt(schema, home, w, w', updates, servers, t);
      assert Contents(servers)[t] == Notices.TableOf(w, t);
    }
  }

  /** Writing to the server leaves the replica alone. */
  method WriteBeside(
    servers: Caches, replicas: Caches, request: Requests, us: Updates, ghost to: Server, ghost sh: Histories, ghost rh: Histories)
    returns (ghost sh': Histories)
    requires ValidCaches(servers, sh) && to.Keys == servers.Keys && servers.Values !! replicas.Values
    requires Unwritable(servers, us, to) == {}
    modifies servers.Values
    ensures ValidCaches(servers, sh') && Contents(servers) == to && Bounded(sh, sh', to)
    ensures old(ValidCaches(replicas, rh)) ==> ValidCaches(replicas, rh)
    ensures forall s: Server :: old(Mirrors(request, s, replicas)) ==> Mirrors(request, s, replicas)
  {
    ghost var from := Contents(servers);
    sh' := WriteTables(servers, us, to, sh);
    TablesWritten(servers, sh, sh', from, to);
  }

  /** The replica follows, and leaves the server alone. */
  method NotifyBeside(
    ghost schema: References.Schema, ghost home: Uuid -> Table, ghost w: References.World, ghost w': References.World,
    updates: Tracker.Changes, servers: Caches, replicas: Caches, request: Requests, ghost sh: Histories, ghost rh: Histories)
    returns (ghost rh': Histories)
    requires Notices.Followable(schema, home, w, w', updates) && Notices.SameColumns(schema, replicas)
    requires ValidCaches(replicas, rh) && Monitoring(request, replicas) && Mirrors(request, Notices.ServerOf(schema, w), replicas)
    requires servers.Values !! replicas.Values
    modifies replicas.Values
    ensures ValidCaches(replicas, rh') && Mirrors(request, Notices.ServerOf(schema, w'), replicas)
    ensures (old(ValidCaches(servers, sh)) ==> ValidCaches(servers, sh)) && Contents(servers) == old(Contents(servers))
  {
    rh' := Notices.Notify(schema, home, w, w', updates, replicas, request, rh);
  }

  /** The outcome of a transaction is written and sent. */
  method Deliver(
    schema: References.Schema, ghost home: Uuid -> Table, servers: Caches, replicas: Caches, request: Requests,
    ghost w: References.World, ghost w': References.World, updates: Tracker.Changes, ghost sh: Histories, ghost rh: Histories)
    returns (ghost sh': Histories, ghost rh': Histories)
    requires Matched(schema, servers, replicas) && Monitoring(request, replicas) && Notices.Followable(schema, home, w, w', updates)
    requires ValidCaches(servers, sh) && ValidCaches(replicas, rh)
    requires Contents(servers) == Notices.ServerOf(schema, w) && Mirrors(request, Contents(servers), replicas)
    modifies servers.Values, replicas.Values
    ensures ValidCaches(servers, sh') && ValidCaches(replicas, rh')
    ensures Contents(servers) == Notices.ServerOf(schema, w') && Mirrors(request, Contents(servers), replicas)
    ensures Bounded(sh, sh', Contents(servers))
  {
    AllWritable(schema, home, w, w', updates, servers);
    sh' := WriteBeside(servers, replicas, request, Notices.UpdatesOf(updates), Notices.ServerOf(schema, w'), sh, rh);
    rh' := NotifyBeside(schema, home, w, w', updates, servers, replicas, request, sh', rh);
  }

  // ---- one transaction ----

  datatype ServeError = OperationError(TxnError) | IntegrityError

  /** The server is in order, and the replica mirrors it. */
  ghost predicate InStep(
    schema: References.Schema, home: Uuid -> Table, servers: Caches, references: References.Index, replicas: Caches, request: Requests,
    sh: Histories, rh: Histories)
    reads servers.Values, replicas.Values
  {
    OutOfStep(schema, home, servers, references, replicas, request, sh, rh) == {}
  }

  /** The stored references, unless all is in step. */
  ghost function OutOfStep(
    schema: References.Schema, home: Uuid -> Table, servers: Caches, references: References.Index, replicas: Caches, request: Requests,
    sh: Histories, rh: Histories): set<References.Index>
    reads servers.Values, replicas.Values
  {
    if && InOrder(schema, home, servers, references, sh) && ValidCaches(replicas, rh)
       && Mirrors(request, Contents(servers), replicas)
    then {} else {references}
  }

  lemma InStepSo(
    schema: References.Schema, home: Uuid -> Table, servers: Caches, references: References.Index, replicas: Caches, request: Requests,
    sh: Histories, rh: Histories)
    ensures InStep(schema, home, servers, references, replicas, request, sh, rh) <==>
      && InOrder(schema, home, servers, references, sh) && ValidCaches(replicas, rh)
      && Mirrors(request, Contents(servers), replicas)
  {
  }

  /** Whether a transaction fails, whether it breaks, and the rows after it. */
  datatype Outcome = Outcome(failed: bool, broken: bool, rows: Server)

  /** What a transaction should do; one that breaks is left alone. */
  ghost function Meaning(schema: References.Schema, sus: Setups, rows: Server, steps: seq<Step>): Outcome {
    var broken := Breaking(schema, sus, rows, steps);
    Outcome(JobRefused(schema, sus, rows, steps), broken, if broken then rows else AfterJob(schema, sus, rows, steps))
  }

  lemma WorldOfTables(schema: References.Schema, home: Uuid -> Table, w: References.World)
    requires Tracker.ValidWorld(schema, home, w)
    ensures Worlds.ServerOk(schema, home, Notices.ServerOf(schema, w)) && AllRows(Notices.ServerOf(schema, w)) == w
  {
    Worlds.ValidWorldIsOk(schema, home, w);
    Worlds.ServerRoundTrip(schema, w);
  }

  lemma TablesOfWorld(schema: References.Schema, home: Uuid -> Table, s: Server)
    requires Worlds.ServerOk(schema, home, s)
    ensures Worlds.Separate(s) && Notices.ServerOf(schema, AllRows(s)) == s
  {
    Worlds.OkIsSeparate(schema, home, s);
    Worlds.WorldRoundTrip(schema, s);
  }

  /** What is swept has no new rows. */
  lemma SweptGains(schema: References.Schema, home: Uuid -> Table, from: Server, steps: seq<Step>, to: Server)
    requires Worlds.ServerOk(schema, home, to) && GainsOnly(from, steps, to)
    ensures GainsOnly(from, steps, SweptTables(schema, AllRows(to)))
  {
    TablesOfWorld(schema, home, to);
    var after := SweptTables(schema, AllRows(to));
    forall t | t in after
      ensures t in from && after[t].Keys <= from[t].Keys + Inserted(OpsOn(steps, t))
    {
      assert t !in Grown(from, steps, to);
      forall u | u in after[t]
        ensures u in to[t]
      {
        Worlds.WorldHas(to, t, u);
      }
    }
  }

  /** Nothing has changed. */
  lemma NothingGained(sh: Histories, now: Server, steps: seq<Step>)
    requires forall t :: t in now ==> t in sh
    ensures Bounded(sh, sh, now) && GainsOnly(now, steps, now)
  {
  }

  /** What is to become of the server: the new database with the changes that lead to it. */
  datatype Verdict = Verdict(e: Option<ServeError>, broken: bool, db: Tracker.Database, updates: Tracker.Changes)

  predicate Goes(v: Verdict) {
    v.e.None? && !v.broken
  }

  /** What a verdict on rows `from` says. */
  ghost function OutcomeOf(schema: References.Schema, from: Server, v: Verdict): Outcome {
    Outcome(v.e.Some?, v.broken, if Goes(v) then Notices.ServerOf(schema, v.db.rows) else from)
  }

  /** The database that a verdict leads to is sound, by changes that a replica can follow. */
  ghost predicate Proceeds(schema: References.Schema, home: Uuid -> Table, from: Server, steps: seq<Step>, v: Verdict) {
    Unfollowed(schema, home, from, steps, v) == {}
  }

  /** The verdict, unless it leads to a sound database by changes that a replica can follow. */
  ghost function Unfollowed(schema: References.Schema, home: Uuid -> Table, from: Server, steps: seq<Step>, v: Verdict): set<Verdict> {
    if && Unsound(schema, home, v.db) == {} && Notices.Followable(schema, home, AllRows(from), v.db.rows, v.updates)
       && GainsOnly(from, steps, Notices.ServerOf(schema, v.db.rows))
    then {} else {v}
  }

  /** References are processed after operations that have not failed. */
  method Judge(
    schema: References.Schema, ghost home: Uuid -> Table, db: Tracker.Database, us: Updates, steps: seq<Step>, ghost from: Server,
    ghost to: Server) returns (v: Verdict)
    requires Unsound(schema, home, db) == {} && db.rows == AllRows(from) && Worlds.LeadsTo(us, from, to)
    requires Worlds.ServerOk(schema, home, from) && Worlds.ServerOk(schema, home, to) && Worlds.TablesPermitted(schema, from, to)
    requires GainsOnly(from, steps, to)
    ensures v.e.Some? <==> Rounds.Refusable(schema, AllRows(to))
    ensures v.broken <==> v.e.None? && Outcomes.Breaks(schema, AllRows(from), AllRows(to))
    ensures Goes(v) ==> Proceeds(schema, home, from, steps, v) && Notices.ServerOf(schema, v.db.rows) == SweptTables(schema, AllRows(to))
  {
    var db', updates, committed, broken := Process(schema, home, db, us, from, to);
    SweptGains(schema, home, from, steps, to);
    v := Verdict(if committed then None else Some(IntegrityError), broken, db', updates);
  }

  lemma JudgedAsMeant(schema: References.Schema, sus: Setups, from: Server, steps: seq<Step>, to: Server, v: Verdict)
    requires to == AfterTables(sus, from, steps) && !SomeStepFails(sus, from, steps, |steps|)
    requires v.e.Some? <==> Rounds.Refusable(schema, AllRows(to))
    requires v.broken <==> v.e.None? && Outcomes.Breaks(schema, AllRows(from), AllRows(to))
    requires Goes(v) ==> Notices.ServerOf(schema, v.db.rows) == SweptTables(schema, AllRows(to))
    ensures OutcomeOf(schema, from, v) == Meaning(schema, sus, from, steps)
  {
  }

  lemma FailedAsMeant(schema: References.Schema, sus: Setups, from: Server, steps: seq<Step>, v: Verdict)
    requires SomeStepFails(sus, from, steps, |steps|) && v.e.Some? && !v.broken
    ensures OutcomeOf(schema, from, v) == Meaning(schema, sus, from, steps)
  {
  }

  /** What can go on does, and if it was foreseen the verdict is what the transaction means. */
  ghost predicate Decided(
    schema: References.Schema, home: Uuid -> Table, sus: Setups, from: Server, steps: seq<Step>, foreseen: bool, v: Verdict)
  {
    Misjudged(schema, home, sus, from, steps, foreseen, v) == {}
  }

  ghost function Misjudged(
    schema: References.Schema, home: Uuid -> Table, sus: Setups, from: Server, steps: seq<Step>, foreseen: bool, v: Verdict): set<Verdict>
  {
    if && (Goes(v) ==> Proceeds(schema, home, from, steps, v))
       && (foreseen ==> OutcomeOf(schema, from, v) == Meaning(schema, sus, from, steps))
    then {} else {v}
  }

  lemma DecidedSo(
    schema: References.Schema, home: Uuid -> Table, sus: Setups, from: Server, steps: seq<Step>, foreseen: bool, v: Verdict)
    ensures Decided(schema, home, sus, from, steps, foreseen, v) <==>
      && (Goes(v) ==> Proceeds(schema, home, from, steps, v))
      && (foreseen ==> OutcomeOf(schema, from, v) == Meaning(schema, sus, from, steps))
  {
  }

  /** The operations of a transaction and the processing of references, before anything is written. */
  method Decide(
    schema: References.Schema, ghost home: Uuid -> Table, servers: Caches, references: References.Index, steps: seq<Step>,
    ghost from: Server, ghost foreseen: bool, ghost sh: Histories) returns (v: Verdict)
    requires References.RefSchema(schema) && servers.Keys == schema.tables.Keys && Notices.SameColumns(schema, servers)
    requires from == Contents(servers) && SensibleJob(schema, home, from, steps) && (foreseen ==> Foreseen(servers, steps))
    requires InOrder(schema, home, servers, references, sh)
    ensures Decided(schema, home, SetupsOf(servers), from, steps, foreseen, v)
  {
    InOrderSo(schema, home, servers, references, sh);
    TablesOfWorld(schema, home, from);
    var db := Tracker.Database(Worlds.WorldOf(Contents(servers)), references);
    var us, e;
    ghost var views;
    us, e, views := Operate(schema, home, servers, steps, from, foreseen, sh);
    if e.Some? {
      v := Verdict(Some(OperationError(e.value)), false, db, map[]);
      if foreseen {
        FailedAsMeant(schema, SetupsOf(servers), from, steps, v);
      }
    } else {
      v := Judge(schema, home, db, us, steps, from, views);
      if foreseen {
        JudgedAsMeant(schema, SetupsOf(servers), from, steps, views, v);
      }
    }
    DecidedSo(schema, home, SetupsOf(servers), from, steps, foreseen, v);
  }

  lemma InStepInOrder(
    schema: References.Schema, home: Uuid -> Table, servers: Caches, references: References.Index, replicas: Caches, request: Requests,
    sh: Histories, rh: Histories)
    requires InStep(schema, home, servers, references, replicas, request, sh, rh)
    ensures InOrder(schema, home, servers, references, sh)
  {
    InStepSo(schema, home, servers, references, replicas, request, sh, rh);
  }

  /** Deciding leaves the rows of the server alone. */
  method DecideOnly(
    schema: References.Schema, ghost home: Uuid -> Table, servers: Caches, references: References.Index, steps: seq<Step>,
    ghost from: Server, ghost foreseen: bool, ghost sh: Histories) returns (v: Verdict)
    requires References.RefSchema(schema) && servers.Keys == schema.tables.Keys && Notices.SameColumns(schema, servers)
    requires from == Contents(servers) && SensibleJob(schema, home, from, steps) && (foreseen ==> Foreseen(servers, steps))
    requires InOrder(schema, home, servers, references, sh)
    ensures Contents(servers) == from && Decided(schema, home, SetupsOf(servers), from, steps, foreseen, v)
  {
    v := Decide(schema, home, servers, references, steps, from, foreseen, sh);
  }

  /** Deciding leaves server and replica alone. */
  method DecideBeside(
    schema: References.Schema, ghost home: Uuid -> Table, servers: Caches, references: References.Index, replicas: Caches,
    ghost request: Requests, steps: seq<Step>, ghost from: Server, ghost foreseen: bool, ghost sh: Histories, ghost rh: Histories)
    returns (v: Verdict)
    requires Matched(schema, servers, replicas) && InStep(schema, home, servers, references, replicas, request, sh, rh)
    requires from == Contents(servers) && SensibleJob(schema, home, from, steps) && (foreseen ==> Foreseen(servers, steps))
    ensures InStep(schema, home, servers, references, replicas, request, sh, rh) && Contents(servers) == from
    ensures Decided(schema, home, SetupsOf(servers), from, steps, foreseen, v)
  {
    InStepSo(schema, home, servers, references, replicas, request, sh, rh);
    v := DecideOnly(schema, home, servers, references, steps, from, foreseen, sh);
  }

  /** A verdict is carried out. */
  method Enact(
    schema: References.Schema, ghost home: Uuid -> Table, servers: Caches, references: References.Index, replicas: Caches,
    request: Requests, steps: seq<Step>, v: Verdict, ghost from: Server, ghost sh: Histories, ghost rh: Histories)
    returns (ghost sh': Histories, ghost rh': Histories)
    requires Matched(schema, servers, replicas) && Monitoring(request, replicas)
    requires InStep(schema, home, servers, references, replicas, request, sh, rh)
    requires from == Contents(servers) && Proceeds(schema, home, from, steps, v)
    modifies servers.Values, replicas.Values
    ensures InStep(schema, home, servers, v.db.references, replicas, request, sh', rh')
    ensures Contents(servers) == Notices.ServerOf(schema, v.db.rows) && Bounded(sh, sh', Contents(servers))
  {
    InStepSo(schema, home, servers, references, replicas, request, sh, rh);
    InOrderSo(schema, home, servers, references, sh);
    ProceedsSo(schema, home, from, steps, v);
    TablesOfWorld(schema, home, from);
    WorldOfTables(schema, home, v.db.rows);
    sh', rh' := Deliver(schema, home, servers, replicas, request, AllRows(from), v.db.rows, v.updates, sh, rh);
    InOrderSo(schema, home, servers, v.db.references, sh');
    InStepSo(schema, home, servers, v.db.references, replicas, request, sh', rh');
  }

  /** One transaction, from its operations to the replica: when it fails nothing changes, and when it
      succeeds and does not break, the server has the rows it leads to, with exact reverse
      references, and the replica follows. */
  method Serve(
    schema: References.Schema, ghost home: Uuid -> Table, servers: Caches, references: References.Index, replicas: Caches,
    request: Requests, steps: seq<Step>, ghost sh: Histories, ghost rh: Histories)
    returns (v: Verdict, references': References.Index, ghost sh': Histories, ghost rh': Histories)
    requires Matched(schema, servers, replicas) && Monitoring(request, replicas)
    requires InStep(schema, home, servers, references, replicas, request, sh, rh)
    requires SensibleJob(schema, home, Contents(servers), steps)
    modifies servers.Values, replicas.Values
    ensures InStep(schema, home, servers, references', replicas, request, sh', rh')
    ensures Bounded(sh, sh', Contents(servers)) && GainsOnly(old(Contents(servers)), steps, Contents(servers))
    ensures !Goes(v) ==> Contents(servers) == old(Contents(servers)) && references' == references
    ensures old(Foreseen(servers, steps)) ==>
      Outcome(v.e.Some?, v.broken, Contents(servers)) == Meaning(schema, SetupsOf(servers), old(Contents(servers)), steps)
  {
    references', sh', rh' := references, sh, rh;
    ghost var from := Contents(servers);
    v := DecideBeside(schema, home, servers, references, replicas, request, steps, from, Foreseen(servers, steps), sh, rh);
    DecidedSo(schema, home, SetupsOf(servers), from, steps, old(Foreseen(servers, steps)), v);
    if Goes(v) {
      references' := v.db.references;
      ProceedsSo(schema, home, from, steps, v);
      sh', rh' := Enact(schema, home, servers, references, replicas, request, steps, v, from, sh, rh);
    } else {
      InStepSo(schema, home, servers, references, replicas, request, sh, rh);
      InOrderSo(schema, home, servers, references, sh);
      NothingGained(sh, from, steps);
    }
  }

  lemma ProceedsSo(schema: References.Schema, home: Uuid -> Table, from: Server, steps: seq<Step>, v: Verdict)
    requires Proceeds(schema, home, from, steps, v)
    ensures Unsound(schema, home, v.db) == {} && Notices.Followable(schema, home, AllRows(from), v.db.rows, v.updates)
    ensures GainsOnly(from, steps, Notices.ServerOf(schema, v.db.rows))
  {
  }

  // ---- runs ----

  type Jobs = seq<seq<Step>>

  /** The rows after a list of transactions. */
  ghost function AfterJobs(schema: References.Schema, sus: Setups, rows: Server, jobs: Jobs): Server {
    if jobs == [] then rows else AfterJob(schema, sus, AfterJobs(schema, sus, rows, jobs[..|jobs| - 1]), jobs[|jobs| - 1])
  }

  function PresentIn(s: Server, t: Table): Versions {
    if t in s then Present(s[t]) else {}
  }

  /** Every version of a row of table `t` that a list of transactions leads to. */
  ghost function VersionsIn(schema: References.Schema, sus: Setups, rows: Server, jobs: Jobs, t: Table): Versions {
    (if jobs == [] then {} else VersionsIn(schema, sus, rows, jobs[..|jobs| - 1], t)) +
    PresentIn(AfterJobs(schema, sus, rows, jobs), t)
  }

  /** The queries of a transaction on these rows are proper, lose no key, and meet no two rows, in
      whatever version, that share a schema index value. */
  ghost predicate JobForeseeable(sus: Setups, rows: Server, steps: seq<Step>) {
    AllProper(sus, steps) && Unforeseeable(sus, rows, steps) == {}
  }

  ghost function Unforeseeable(sus: Setups, rows: Server, steps: seq<Step>): set<Table> {
    set t | t in rows && !(t in sus && TableForeseeable(sus[t], rows[t], OpsOn(steps, t)))
  }

  ghost predicate TableForeseeable(su: Setup, rows: Rows, ops: seq<Operation>) {
    && (forall i :: 0 <= i < |ops| && !ops[i].Insert? ==> Query.Benign(su, ops[i].where))
    && (AllTyped(su.ts, rows) ==> Apart(su, Planned(su.ts, rows, ops)))
  }

  /** The same of every transaction of a run, on the rows that those before it lead to; and no two
      rows of the run, nor of what the server has held before, share a schema index value. */
  ghost predicate Foreseeable(schema: References.Schema, sus: Setups, rows: Server, sh: Histories, jobs: Jobs) {
    Obscure(schema, sus, rows, jobs) == {} && Confused(schema, sus, rows, sh, jobs) == {}
  }

  /** The transactions that are not foreseeable. */
  ghost function Obscure(schema: References.Schema, sus: Setups, rows: Server, jobs: Jobs): set<int> {
    set i | 0 <= i < |jobs| && !JobForeseeable(sus, AfterJobs(schema, sus, rows, jobs[..i]), jobs[i])
  }

  /** The tables in which rows share a schema index value. */
  ghost function Confused(schema: References.Schema, sus: Setups, rows: Server, sh: Histories, jobs: Jobs): set<Table> {
    set t | t in sus && !(t in sh && ApartIn(sus[t], sh[t] + VersionsIn(schema, sus, rows, jobs, t)))
  }

  /** No two of the rows share a schema index value, and no index is over a whole set or map. */
  ghost predicate ApartIn(su: Setup, h: Versions) {
    Apart(su, h) && forall s :: s in su.specs ==> Query.NoWholeCollections(su.ts, s)
  }

  /** The server has held no versions but those of before and those the run has led to. */
  ghost predicate Within(
    schema: References.Schema, sus: Setups, rows: Server, sh: Histories, sh': Histories, jobs: Jobs)
  {
    Beyond(schema, sus, rows, sh, sh', jobs) == {}
  }

  ghost function Beyond(
    schema: References.Schema, sus: Setups, rows: Server, sh: Histories, sh': Histories, jobs: Jobs): set<Table>
  {
    set t | t in rows && !(t in sh && t in sh' && sh'[t] <= sh[t] + VersionsIn(schema, sus, rows, jobs, t))
  }

  lemma AfterJobsNext(schema: References.Schema, sus: Setups, rows: Server, jobs: Jobs, n: nat)
    requires n < |jobs|
    ensures AfterJobs(schema, sus, rows, jobs[..n + 1]) == AfterJob(schema, sus, AfterJobs(schema, sus, rows, jobs[..n]), jobs[n])
    ensures forall t ::
      VersionsIn(schema, sus, rows, jobs[..n + 1], t) ==
      VersionsIn(schema, sus, rows, jobs[..n], t) + PresentIn(AfterJobs(schema, sus, rows, jobs[..n + 1]), t)
  {
    assert jobs[..n + 1][..n] == jobs[..n];
  }

  lemma {:induction false} VersionsPrefix(schema: References.Schema, sus: Setups, rows: Server, jobs: Jobs, n: nat, t: Table)
    requires n <= |jobs|
    ensures VersionsIn(schema, sus, rows, jobs[..n], t) <= VersionsIn(schema, sus, rows, jobs, t)
    decreases |jobs|
  {
    if n == |jobs| {
      assert jobs[..n] == jobs;
    } else {
      var front := jobs[..|jobs| - 1];
      assert front[..n] == jobs[..n];
      VersionsPrefix(schema, sus, rows, front, n, t);
    }
  }

  lemma TablePlannable(server: RowCache, h: Versions, h': Versions, ops: seq<Operation>)
    requires Tracked(server, h) && h <= h' && ApartIn(server.su, h') && TableForeseeable(server.su, server.cache, ops)
    ensures Plannable(server.su, server.cache, server.indexes, ops)
  {
    ApartSubset(server.su, h, h');
  }

  /** The next transaction of a foreseeable run is foreseen. */
  lemma ForeseenNow(
    schema: References.Schema, servers: Caches, rows: Server, sh: Histories, sh': Histories, jobs: Jobs, n: nat)
    requires n < |jobs| && Foreseeable(schema, SetupsOf(servers), rows, sh, jobs) && rows.Keys == servers.Keys
    requires ValidCaches(servers, sh') && Within(schema, SetupsOf(servers), rows, sh, sh', jobs[..n])
    requires Contents(servers) == AfterJobs(schema, SetupsOf(servers), rows, jobs[..n])
    ensures Foreseen(servers, jobs[n])
  {
    var sus := SetupsOf(servers);
    assert n !in Obscure(schema, sus, rows, jobs);
    forall t | t in servers
      ensures Plannable(servers[t].su, servers[t].cache, servers[t].indexes, OpsOn(jobs[n], t))
    {
      assert t !in Beyond(schema, sus, rows, sh, sh', jobs[..n]) && t !in Unforeseeable(sus, Contents(servers), jobs[n]);
      VersionsPrefix(schema, sus, rows, jobs, n, t);
      assert t !in Confused(schema, sus, rows, sh, jobs) && Tracked(servers[t], sh'[t]);
      TablePlannable(servers[t], sh'[t], sh[t] + VersionsIn(schema, sus, rows, jobs, t), OpsOn(jobs[n], t));
    }
  }

  lemma WithinNext(
    schema: References.Schema, sus: Setups, rows: Server, sh: Histories, sh1: Histories, sh2: Histories, jobs: Jobs, n: nat, now: Server)
    requires n < |jobs| && Within(schema, sus, rows, sh, sh1, jobs[..n]) && Bounded(sh1, sh2, now) && now.Keys == rows.Keys
    requires now == AfterJobs(schema, sus, rows, jobs[..n + 1])
    ensures Within(schema, sus, rows, sh, sh2, jobs[..n + 1])
  {
    AfterJobsNext(schema, sus, rows, jobs, n);
    forall t | t in rows
      ensures t in sh && t in sh2 && sh2[t] <= sh[t] + VersionsIn(schema, sus, rows, jobs[..n + 1], t)
    {
      assert t !in Beyond(schema, sus, rows, sh, sh1, jobs[..n]);
      assert t in now;
    }
  }

  // ---- inserts over a run ----

  /** The UUIDs that jobs insert into a table. */
  function InsertedInto(jobs: Jobs, t: Table): set<Uuid> {
    if jobs == [] then {} else InsertedInto(jobs[..|jobs| - 1], t) + Inserted(OpsOn(jobs[|jobs| - 1], t))
  }

  /** The UUIDs of inserts are distinct and none of `known`. */
  predicate FreshFor(known: set<Uuid>, ops: seq<Operation>) {
    forall i :: 0 <= i < |ops| && ops[i].Insert? ==>
      ops[i].uuid !in known && forall j :: 0 <= j < i && ops[j].Insert? ==> ops[j].uuid != ops[i].uuid
  }

  /** The operations of all transactions are on known tables, keep references in order, and insert
      UUIDs that are new to their table. */
  ghost predicate SensibleRun(schema: References.Schema, home: Uuid -> Table, start: Server, jobs: Jobs) {
    Senseless(schema, home, start, jobs) == {}
  }

  ghost function Senseless(schema: References.Schema, home: Uuid -> Table, start: Server, jobs: Jobs): set<int> {
    set i | 0 <= i < |jobs| && !SensibleAt(schema, home, start, jobs, i)
  }

  ghost predicate SensibleAt(schema: References.Schema, home: Uuid -> Table, start: Server, jobs: Jobs, i: nat)
    requires i < |jobs|
  {
    && Foolish(schema, home, jobs[i]) == {}
    && forall t :: t in start ==> FreshFor(start[t].Keys + InsertedInto(jobs[..i], t), OpsOn(jobs[i], t))
  }

  /** The tables have no rows but those at the start and those inserted. */
  ghost predicate Accounted(start: Server, jobs: Jobs, now: Server) {
    now.Keys == start.Keys && Overgrown(start, jobs, now) == {}
  }

  ghost function Overgrown(start: Server, jobs: Jobs, now: Server): set<Table> {
    set t | t in now && !(t in start && now[t].Keys <= start[t].Keys + InsertedInto(jobs, t))
  }

  lemma AccountedNext(start: Server, jobs: Jobs, n: nat, before: Server, after: Server)
    requires n < |jobs| && Accounted(start, jobs[..n], before) && GainsOnly(before, jobs[n], after)
    ensures Accounted(start, jobs[..n + 1], after)
  {
    assert jobs[..n + 1][..n] == jobs[..n];
    forall t | t in after
      ensures t in start && after[t].Keys <= start[t].Keys + InsertedInto(jobs[..n + 1], t)
    {
      assert t !in Overgrown(start, jobs[..n], before) && t !in Grown(before, jobs[n], after);
    }
  }

  lemma SensibleNow(schema: References.Schema, home: Uuid -> Table, start: Server, jobs: Jobs, n: nat, now: Server)
    requires n < |jobs| && SensibleRun(schema, home, start, jobs) && Accounted(start, jobs[..n], now)
    ensures SensibleJob(schema, home, now, jobs[n])
  {
    assert n !in Senseless(schema, home, start, jobs);
    forall t | t in now
      ensures FreshInserts(now[t], OpsOn(jobs[n], t))
    {
      assert t !in Overgrown(start, jobs[..n], now);
    }
  }

  // ---- the run ----

  /** The transactions among the first `n` that did not have the result they should. */
  ghost function Mistaken(
    schema: References.Schema, sus: Setups, rows: Server, jobs: Jobs, results: seq<Option<ServeError>>, n: nat): set<int>
  {
    set i | 0 <= i < n && !(i < |jobs| && i < |results| && RightAt(schema, sus, rows, jobs, results[i], i))
  }

  /** Transaction `i` fails exactly when it is refused on what those before it lead to, and does not
      break. */
  ghost predicate RightAt(schema: References.Schema, sus: Setups, rows: Server, jobs: Jobs, e: Option<ServeError>, i: nat)
    requires i < |jobs|
  {
    var before := AfterJobs(schema, sus, rows, jobs[..i]);
    (e.Some? <==> JobRefused(schema, sus, before, jobs[i])) && !Breaking(schema, sus, before, jobs[i])
  }

  /** The first `n` transactions had the right results and led to `now`. */
  ghost predicate Right(
    schema: References.Schema, sus: Setups, rows: Server, jobs: Jobs, results: seq<Option<ServeError>>, n: nat, now: Server)
  {
    && n <= |jobs| && |results| == n && now == AfterJobs(schema, sus, rows, jobs[..n])
    && Mistaken(schema, sus, rows, jobs, results, n) == {}
  }

  lemma RightNext(
    schema: References.Schema, sus: Setups, rows: Server, jobs: Jobs, results: seq<Option<ServeError>>, n: nat, before: Server,
    e: Option<ServeError>, now: Server)
    requires n < |jobs| && Right(schema, sus, rows, jobs, results, n, before)
    requires Outcome(e.Some?, false, now) == Meaning(schema, sus, before, jobs[n])
    ensures Right(schema, sus, rows, jobs, results + [e], n + 1, now)
  {
    AfterJobsNext(schema, sus, rows, jobs, n);
    assert RightAt(schema, sus, rows, jobs, e, n);
    MistakenNext(schema, sus, rows, jobs, results, n, e);
  }

  lemma MistakenNext(
    schema: References.Schema, sus: Setups, rows: Server, jobs: Jobs, results: seq<Option<ServeError>>, n: nat, e: Option<ServeError>)
    requires n < |jobs| && |results| == n && Mistaken(schema, sus, rows, jobs, results, n) == {}
    requires RightAt(schema, sus, rows, jobs, e, n)
    ensures Mistaken(schema, sus, rows, jobs, results + [e], n + 1) == {}
  {
    forall i | 0 <= i < n + 1
      ensures RightAt(schema, sus, rows, jobs, (results + [e])[i], i)
    {
      if i < n {
        assert i !in Mistaken(schema, sus, rows, jobs, results, n);
      }
    }
  }

  /** What holds after the transactions that have results. */
  ghost predicate Going(
    schema: References.Schema, sus: Setups, start: Server, jobs: Jobs, results: seq<Option<ServeError>>, n: nat, foreseeable: bool,
    sh: Histories, sh': Histories, now: Server)
  {
    OffCourse(schema, sus, start, jobs, results, n, foreseeable, sh, sh', now) == {}
  }

  /** The number of transactions, unless all of them went well. */
  ghost function OffCourse(
    schema: References.Schema, sus: Setups, start: Server, jobs: Jobs, results: seq<Option<ServeError>>, n: nat, foreseeable: bool,
    sh: Histories, sh': Histories, now: Server): set<nat>
  {
    if && n <= |jobs| && |results| == n && Accounted(start, jobs[..n], now)
       && (foreseeable ==> Right(schema, sus, start, jobs, results, n, now) && Within(schema, sus, start, sh, sh', jobs[..n]))
    then {} else {n}
  }

  lemma GoingSo(
    schema: References.Schema, sus: Setups, start: Server, jobs: Jobs, results: seq<Option<ServeError>>, n: nat, foreseeable: bool,
    sh: Histories, sh': Histories, now: Server)
    ensures Going(schema, sus, start, jobs, results, n, foreseeable, sh, sh', now) <==>
      && n <= |jobs| && |results| == n && Accounted(start, jobs[..n], now)
      && (foreseeable ==> Right(schema, sus, start, jobs, results, n, now) && Within(schema, sus, start, sh, sh', jobs[..n]))
  {
  }

  method ServeNext(
    schema: References.Schema, ghost home: Uuid -> Table, servers: Caches, references: References.Index, replicas: Caches,
    request: Requests, ghost start: Server, jobs: Jobs, results: seq<Option<ServeError>>, n: nat, ghost foreseeable: bool,
    ghost sh0: Histories, ghost sh: Histories, ghost rh: Histories)
    returns (v: Verdict, references': References.Index, ghost sh': Histories, ghost rh': Histories)
    requires Matched(schema, servers, replicas) && Monitoring(request, replicas) && start.Keys == servers.Keys
    requires InStep(schema, home, servers, references, replicas, request, sh, rh)
    requires n < |jobs| && SensibleRun(schema, home, start, jobs)
    requires foreseeable ==> Foreseeable(schema, SetupsOf(servers), start, sh0, jobs)
    requires Going(schema, SetupsOf(servers), start, jobs, results, n, foreseeable, sh0, sh, Contents(servers))
    modifies servers.Values, replicas.Values
    ensures InStep(schema, home, servers, references', replicas, request, sh', rh')
    ensures v.broken ==> Going(schema, SetupsOf(servers), start, jobs, results, n, foreseeable, sh0, sh, Contents(servers))
    ensures v.broken && foreseeable ==> Breaking(schema, SetupsOf(servers), Contents(servers), jobs[n])
    ensures !v.broken ==>
      Going(schema, SetupsOf(servers), start, jobs, results + [v.e], n + 1, foreseeable, sh0, sh', Contents(servers))
  {
    ghost var (sus, before) := (SetupsOf(servers), Contents(servers));
    GoingSo(schema, sus, start, jobs, results, n, foreseeable, sh0, sh, before);
    SensibleNow(schema, home, start, jobs, n, before);
    if foreseeable {
      InStepInOrder(schema, home, servers, references, replicas, request, sh, rh);
      InOrderSo(schema, home, servers, references, sh);
      ForeseenNow(schema, servers, start, sh0, sh, jobs, n);
    }
    v, references', sh', rh' := Serve(schema, home, servers, references, replicas, request, jobs[n], sh, rh);
    if !v.broken {
      GoingNext(schema, sus, start, jobs, results, n, foreseeable, sh0, sh, sh', before, v.e, Contents(servers));
    }
  }

  lemma GoingNext(
    schema: References.Schema, sus: Setups, start: Server, jobs: Jobs, results: seq<Option<ServeError>>, n: nat, foreseeable: bool,
    sh0: Histories, sh: Histories, sh': Histories, before: Server, e: Option<ServeError>, now: Server)
    requires n < |jobs| && Going(schema, sus, start, jobs, results, n, foreseeable, sh0, sh, before)
    requires GainsOnly(before, jobs[n], now) && Bounded(sh, sh', now)
    requires foreseeable ==> Outcome(e.Some?, false, now) == Meaning(schema, sus, before, jobs[n])
    ensures Going(schema, sus, start, jobs, results + [e], n + 1, foreseeable, sh0, sh', now)
  {
    GoingSo(schema, sus, start, jobs, results, n, foreseeable, sh0, sh, before);
    GoingSo(schema, sus, start, jobs, results + [e], n + 1, foreseeable, sh0, sh', now);
    AccountedNext(start, jobs, n, before, now);
    if foreseeable {
      RightNext(schema, sus, start, jobs, results, n, before, e, now);
      WithinNext(schema, sus, start, sh0, sh, sh', jobs, n, now);
    }
  }

  method ServeLoop(
    schema: References.Schema, ghost home: Uuid -> Table, servers: Caches, references: References.Index, replicas: Caches,
    request: Requests, ghost start: Server, jobs: Jobs, ghost foreseeable: bool, ghost sh: Histories, ghost rh: Histories)
    returns (
      results: seq<Option<ServeError>>, n: nat, references': References.Index, ghost held: Histories, ghost sh': Histories,
      ghost rh': Histories)
    requires Matched(schema, servers, replicas) && Monitoring(request, replicas) && start == Contents(servers)
    requires InStep(schema, home, servers, references, replicas, request, sh, rh)
    requires SensibleRun(schema, home, start, jobs)
    requires foreseeable ==> Foreseeable(schema, SetupsOf(servers), start, sh, jobs)
    modifies servers.Values, replicas.Values
    ensures InStep(schema, home, servers, references', replicas, request, sh', rh')
    ensures n <= |jobs| && Going(schema, SetupsOf(servers), start, jobs, results, n, foreseeable, sh, held, Contents(servers))
    ensures n < |jobs| && foreseeable ==> Breaking(schema, SetupsOf(servers), Contents(servers), jobs[n])
  {
    n, results, references', sh', rh' := 0, [], references, sh, rh;
    HistoriesKnown(schema, home, servers, references, replicas, request, sh, rh);
    GoingStart(schema, SetupsOf(servers), start, jobs, foreseeable, sh);
    while n < |jobs|
      invariant n <= |jobs| && InStep(schema, home, servers, references', replicas, request, sh', rh')
      invariant Going(schema, SetupsOf(servers), start, jobs, results, n, foreseeable, sh, sh', Contents(servers))
    {
      var v;
      held := sh';
      v, references', sh', rh' := ServeNext(
        schema, home, servers, references', replicas, request, start, jobs, results, n, foreseeable, sh, sh', rh');
      if v.broken {
        return;
      }
      n, results := n + 1, results + [v.e];
    }
    held := sh';
  }

  /** End to end, over any list of transactions given by their operations, on any tables: the server
      stays in order, and the replica never fails and equals it on the monitored tables and columns.
      When the run is foreseeable, every transaction fails exactly when it is refused on the rows
      that those before it lead to, the run ends at the first that breaks, and the server has
      exactly the rows that the transactions lead to. */
  method ServeAll(
    schema: References.Schema, ghost home: Uuid -> Table, servers: Caches, references: References.Index, replicas: Caches,
    request: Requests, jobs: Jobs, ghost sh: Histories, ghost rh: Histories)
    returns (results: seq<Option<ServeError>>, references': References.Index, ghost sh': Histories, ghost rh': Histories)
    requires Matched(schema, servers, replicas) && Monitoring(request, replicas)
    requires InStep(schema, home, servers, references, replicas, request, sh, rh)
    requires SensibleRun(schema, home, Contents(servers), jobs)
    modifies servers.Values, replicas.Values
    ensures InStep(schema, home, servers, references', replicas, request, sh', rh')
    ensures |results| <= |jobs| && Accounted(old(Contents(servers)), jobs[..|results|], Contents(servers))
    ensures Foreseeable(schema, SetupsOf(servers), old(Contents(servers)), sh, jobs) ==>
      && Right(schema, SetupsOf(servers), old(Contents(servers)), jobs, results, |results|, Contents(servers))
      && (|results| < |jobs| ==> Breaking(schema, SetupsOf(servers), Contents(servers), jobs[|results|]))
  {
    ghost var start := Contents(servers);
    ghost var foreseeable := Foreseeable(schema, SetupsOf(servers), start, sh, jobs);
    var n;
    ghost var held;
    results, n, references', held, sh', rh' :=
      ServeLoop(schema, home, servers, references, replicas, request, start, jobs, foreseeable, sh, rh);
    GoingSo(schema, SetupsOf(servers), start, jobs, results, n, foreseeable, sh, held, Contents(servers));
  }

  lemma HistoriesKnown(
    schema: References.Schema, home: Uuid -> Table, servers: Caches, references: References.Index, replicas: Caches, request: Requests,
    sh: Histories, rh: Histories)
    requires InStep(schema, home, servers, references, replicas, request, sh, rh)
    ensures servers.Keys <= sh.Keys
  {
    InStepInOrder(schema, home, servers, references, replicas, request, sh, rh);
    InOrderSo(schema, home, servers, references, sh);
  }

  lemma GoingStart(schema: References.Schema, sus: Setups, start: Server, jobs: Jobs, foreseeable: bool, sh: Histories)
    requires foreseeable ==> start.Keys <= sh.Keys
    ensures Going(schema, sus, start, jobs, [], 0, foreseeable, sh, sh, start)
  {
    GoingSo(schema, sus, start, jobs, [], 0, foreseeable, sh, sh, start);
    assert jobs[..0] == [];
  }
}
