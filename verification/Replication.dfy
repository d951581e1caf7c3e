/** Keeping a replica in step with a server: the server filters the updates of a transaction for a
    monitor, the replica applies what it is sent (server/monitor.go, updates/updates.go,
    cache/cache.go). */
module Replication {
  import opened Values
  import opened Difference
  import opened Merge
  import opened Mutations
  import opened Operations
  import opened ModelUpdates
  import opened Cache
  import opened Query
  import opened Overlay

  // ---- the monitor ----

  /** What a monitor asks of a table. */
  datatype Request = Request(columns: seq<Column>, insert: bool, delta: bool, delete: bool)

  type Requests = map<Table, Request>
  type TableUpdate = map<Uuid, RowUpdate2>
  type TableUpdates = map<Table, TableUpdate>

  function ColumnsOf(req: Request): set<Column> {
    set c | c in req.columns
  }

  function Restricted(row: Row, cols: set<Column>): Row {
    map c | c in row && c in cols :: row[c]
  }

  function RestrictedIf(row: Option<Row>, cols: set<Column>): Option<Row> {
    if row.None? then None else Some(Restricted(row.value, cols))
  }

  method FilterColumns(row: Option<Row>, cols: set<Column>) returns (r: Option<Row>)
    ensures r == RestrictedIf(row, cols)
  {
    if row.None? {
      return None;
    }
    var newRow: Row := map[];
    var todo := row.value.Keys;
    while todo != {}
      invariant todo <= row.value.Keys
      invariant newRow == Restricted(row.value - todo, cols)
      decreases todo
    {
      var k :| k in todo;
      if k in cols {
        newRow := newRow[k := row.value[k]];
      }
      todo := todo - {k};
    }
    assert row.value - todo == row.value;
    return Some(newRow);
  }

  /** Whether the monitor selects an update of this sort. */
  predicate Selected(req: Request, ru: RowUpdate2) {
    (ru.insert.Some? && req.insert) || (ru.delta.Some? && req.delta) || (ru.delete.Some? && req.delete)
  }

  function FilteredRow(req: Request, ru: RowUpdate2): RowUpdate2 {
    var cols := ColumnsOf(req);
    ru.(insert := RestrictedIf(ru.insert, cols), delta := RestrictedIf(ru.delta, cols), delete := RestrictedIf(ru.delete, cols))
  }

  predicate Passes(req: Request, mu: ModelUpdate) {
    mu.row.Some? && Selected(req, mu.row.value)
  }

  function FilteredTable(req: Request, us: map<Uuid, ModelUpdate>): TableUpdate {
    map u | u in us && Passes(req, us[u]) :: FilteredRow(req, us[u].row.value)
  }

  method FilterTable(req: Request, us: map<Uuid, ModelUpdate>) returns (tu: TableUpdate)
    requires forall u :: u in us ==> us[u].row.Some?
    ensures tu == FilteredTable(req, us)
  {
    tu := map[];
    var cols := ColumnsOf(req);
    var todo := us.Keys;
    while todo != {}
      invariant todo <= us.Keys
      invariant tu == FilteredTable(req, us - todo)
      decreases todo
    {
      var u :| u in todo;
      var ru := us[u].row.value;
      if Selected(req, ru) {
        var insert := FilterColumns(ru.insert, cols);
        var delta := FilterColumns(ru.delta, cols);
        var delete := FilterColumns(ru.delete, cols);
        tu := tu[u := ru.(insert := insert, delta := delta, delete := delete)];
      }
      todo := todo - {u};
    }
    assert us - todo == us;
  }

  datatype MonitorError = MissingRequest

  /** `filter2`: only tables that are requested, and of them only selected updates and requested
      columns.  Without any request no table is passed over, and the first updated one is looked up
      in vain: the code then panics, whenever there is an update at all. */
  method Filter2(request: Requests, us: Updates) returns (r: Result<TableUpdates, MonitorError>)
    requires Pruned(us)
    ensures r.Err? <==> request == map[] && us != map[]
    ensures r.Ok? ==> Filtered(request, us, r.value)
  {
    var tus: TableUpdates := map[];
    var todo := us.Keys;
    while todo != {}
      invariant todo <= us.Keys
      invariant tus.Keys == (us.Keys - todo) * request.Keys
      invariant request == map[] ==> todo == us.Keys
      invariant forall t :: t in tus ==> tus[t] == FilteredTable(request[t], us[t])
      decreases todo
    {
      var t :| t in todo;
      if t !in request && |request| == 0 {
        return Err(MissingRequest);
      }
      if t in request {
        var tu := FilterTable(request[t], us[t]);
        tus := tus[t := tu];
      }
      todo := todo - {t};
    }
    return Ok(tus);
  }

  ghost predicate Filtered(request: Requests, us: Updates, tus: TableUpdates) {
    tus.Keys == us.Keys * request.Keys && forall t :: t in tus ==> tus[t] == FilteredTable(request[t], us[t])
  }

  /** The row in OVSDB notation, with the requested columns only. */
  ghost predicate Shows(req: Request, m: Model, shown: Option<Row>) {
    && shown.Some?
    && (forall c :: c in shown.value <==> c in req.columns && c in m && !IsDefault(m[c]))
    && (forall c :: c in shown.value ==> shown.value[c] == m[c])
  }

  /** The requested columns that changed, each with the difference that leads to its new value. */
  ghost predicate ShowsChange(req: Request, o: Model, n: Model, shown: Option<Row>) {
    && shown.Some?
    && (forall c :: c in shown.value <==> c in req.columns && c in o && !(c in n && o[c] == n[c]))
    && (forall c :: c in shown.value ==> c in n && Apply(o[c], shown.value[c]) == n[c])
  }

  /** A row that came, changed or went is in the notification exactly when the monitor selects
      insertions, modifications or deletions, and is shown there as nothing but that. */
  lemma FilterMeans(request: Requests, us: Updates, tus: TableUpdates, t: Table, u: Uuid, o: Option<Model>, n: Option<Model>)
    requires Filtered(request, us, tus) && t in request && t in us && u in us[t]
    requires Summarizes(us[t][u], o, n) && o != n
    ensures t in tus
    ensures o.None? ==> (u in tus[t] <==> request[t].insert)
    ensures o.Some? && n.Some? ==> (u in tus[t] <==> request[t].delta)
    ensures n.None? ==> (u in tus[t] <==> request[t].delete)
    ensures u in tus[t] && o.None? ==> Shows(request[t], n.value, tus[t][u].insert)
    ensures u in tus[t] && o.Some? && n.Some? ==> ShowsChange(request[t], o.value, n.value, tus[t][u].delta)
    ensures u in tus[t] && n.None? ==> tus[t][u].delete == Some(map[])
    ensures u in tus[t] ==>
      var ru := tus[t][u];
      ru.initial.None? && ru.insert.Some? == o.None? && ru.delta.Some? == (o.Some? && n.Some?) && ru.delete.Some? == n.None?
  {
    if u in tus[t] && o.Some? && n.Some? {
      var (d, shown) := (us[t][u].row.value.delta.value, tus[t][u].delta.value);
      assert shown == Restricted(d, ColumnsOf(request[t]));
      forall c | c in o.value
        ensures c in shown <==> c in request[t].columns && !(c in n.value && o.value[c] == n.value[c])
        ensures c in shown ==> c in n.value && Apply(o.value[c], shown[c]) == n.value[c]
      {
        DeltaAt(o.value, d, n.value, c);
      }
    }
  }

  // ---- one row ----

  /** The rows agree on the monitored columns. */
  predicate AgreeOn(cols: set<Column>, m: Model, n: Model) {
    forall c :: c in cols && c in m ==> c in n && m[c] == n[c]
  }

  /** The replica has a row exactly when the server has it, with the same monitored columns. */
  predicate SameRow(cols: set<Column>, server: Option<Model>, replica: Option<Model>) {
    (server.Some? <==> replica.Some?) && (server.Some? ==> AgreeOn(cols, server.value, replica.value))
  }

  /** A difference between values of a type has that type. */
  lemma DifferenceKind(o: Value, d: Value, k: Kind)
    requires HasKind(o, k) && SameKind(o, d) && HasKind(Apply(o, d), k)
    ensures HasKind(d, k)
  {
    ApplyTwice(o, d);
    ApplyKeepsKind(o, Apply(o, d), k);
  }

  /** Projection commutes with applying a delta: the projected delta takes a row that agrees with
      the old row to one that agrees with the new row, and is never refused. */
  lemma ProjectionCommutes(ts: TableSchema, cols: set<Column>, o: Model, d: Row, n: Model, current: Model)
    requires TypedModel(ts, o) && TypedModel(ts, n) && TypedModel(ts, current) && Permitted(ts, o, n)
    requires Tight(o, d) && ApplyDelta(o, d) == n
    requires AgreeOn(cols, o, current)
    ensures forall c :: !Refused(ts, current, Restricted(d, cols), true, c)
    ensures AgreeOn(cols, n, Changed(ts, current, Restricted(d, cols), true))
    ensures forall c :: c in ts && c !in cols ==> Changed(ts, current, Restricted(d, cols), true)[c] == current[c]
  {
    var d' := Restricted(d, cols);
    forall c | c in ts
      ensures !Refused(ts, current, d', true, c)
      ensures c in cols ==> Changed(ts, current, d', true)[c] == n[c]
    {
      DeltaAt(o, d, n, c);
      if c in d' {
        DifferenceKind(o[c], d[c], ts[c].kind);
      }
    }
  }

  /** An inserted row arrives exactly when its monitored columns hold no all-zero UUID. */
  lemma InsertArrives(ts: TableSchema, cols: set<Column>, n: Model)
    requires TypedModel(ts, n)
    ensures TypedRow(ts, Restricted(RowOf(n), cols))
    ensures AgreeOn(cols, n, ModelOf(ts, Restricted(RowOf(n), cols))) <==>
      forall c :: c in cols && c in n ==> NormalValue(n[c])
  {
    var got := ModelOf(ts, Restricted(RowOf(n), cols));
    forall c | c in ts && c in cols
      ensures got[c] == n[c] <==> NormalValue(n[c])
    {
      assert HasKind(n[c], ts[c].kind);
      assert ZeroLike(n[c]) == ZeroOf(ts[c].kind);
    }
    forall c | c in Restricted(RowOf(n), cols)
      ensures HasKind(n[c], ts[c].kind)
    {
    }
  }

  predicate AllSelected(req: Request) {
    req.insert && req.delta && req.delete
  }

  /** The row of an initial or inserted row. */
  function Arrival(ru: RowUpdate2): Option<Row> {
    if ru.initial.Some? then ru.initial else ru.insert
  }

  /** What the replica makes of the notification of a change it was selected for. */
  function Received(ts: TableSchema, current: Option<Model>, ru: RowUpdate2): Option<Model>
    requires current.Some? ==> TypedModel(ts, current.value)
  {
    if Arrival(ru).Some? then Some(ModelOf(ts, Arrival(ru).value))
    else if ru.delta.Some? && current.Some? then Some(Changed(ts, current.value, ru.delta.value, true))
    else None
  }

  /** A typed row, if any. */
  predicate TypedIf(ts: TableSchema, m: Option<Model>) {
    m.Some? ==> TypedModel(ts, m.value)
  }

  /** A change of a row the server may make. */
  predicate MayChange(ts: TableSchema, o: Option<Model>, n: Option<Model>) {
    && TypedIf(ts, o) && TypedIf(ts, n)
    && (n.Some? ==> Normal(n.value))
    && (o.Some? && n.Some? ==> Permitted(ts, o.value, n.value))
  }

  /** The notification can be applied: no row is missing and no column refused. */
  predicate Applicable(ts: TableSchema, current: Option<Model>, ru: RowUpdate2)
    requires TypedIf(ts, current)
  {
    if Arrival(ru).Some? then current.None? && TypedRow(ts, Arrival(ru).value)
    else current.Some? && (ru.delta.Some? ==> forall c :: c in ru.delta.value ==> !Refused(ts, current.value, ru.delta.value, true, c))
  }

  lemma RowReplicates(ts: TableSchema, req: Request, mu: ModelUpdate, o: Option<Model>, n: Option<Model>, current: Option<Model>)
    requires Summarizes(mu, o, n) && MayChange(ts, o, n) && AllSelected(req)
    requires TypedIf(ts, current) && SameRow(ColumnsOf(req), o, current)
    ensures mu == NO_UPDATE ==> SameRow(ColumnsOf(req), n, current)
    ensures mu != NO_UPDATE ==> Passes(req, mu)
    ensures mu != NO_UPDATE ==>
      var ru := FilteredRow(req, mu.row.value);
      && Applicable(ts, current, ru)
      && SameRow(ColumnsOf(req), n, Received(ts, current, ru))
  {
    var cols := ColumnsOf(req);
    if o.None? && n.Some? {
      InsertArrives(ts, cols, n.value);
    } else if o.Some? && n.Some? && o != n {
      ProjectionCommutes(ts, cols, o.value, mu.row.value.delta.value, n.value, current.value);
    }
  }

  // ---- the replica ----

  datatype PopulateError = CacheInconsistent | RowError(OpError) | CacheError(CacheError)

  /** A cache after notifications about the rows of `tu`. */
  ghost predicate Populated(ts: TableSchema, before: Rows, tu: TableUpdate, now: Rows)
    requires AllTyped(ts, before)
  {
    forall u :: At(now, u) == if u in tu then Received(ts, At(before, u), tu[u]) else At(before, u)
  }

  /** One notification. */
  method PopulateRow(rc: RowCache, u: Uuid, ru: RowUpdate2, ghost h: Versions) returns (e: Option<PopulateError>, ghost h': Versions)
    requires Tracked(rc, h)
    modifies rc
    ensures Tracked(rc, h') && h <= h'
    ensures e.None? <==> Applicable(rc.su.ts, At(old(rc.cache), u), ru)
    ensures e.None? ==> At(rc.cache, u) == Received(rc.su.ts, At(old(rc.cache), u), ru)
    ensures rc.cache - {u} == old(rc.cache) - {u}
  {
    h' := h;
    var current := if u in rc.cache then Some(rc.cache[u]) else None;
    if ru.initial.None? && ru.insert.None? && current.None? {
      return Some(CacheInconsistent), h';
    }
    var update := UpdateFrom(rc.su.ts, current, ru);
    if update.Err? {
      return Some(RowError(update.error)), h';
    }
    e := None;
    if update.value != NO_UPDATE {
      if update.value.after.Some? {
        h' := h + {(u, update.value.after.value)};
      }
      var ce := ApplyOne(rc, u, update.value, h);
      if ce.Some? {
        e := Some(CacheError(ce.value));
      }
    }
  }

  /** The update a notification stands for, read against what the replica holds. */
  method UpdateFrom(ts: TableSchema, current: Option<Model>, ru: RowUpdate2) returns (r: Result<ModelUpdate, OpError>)
    requires TypedIf(ts, current) && (Arrival(ru).None? ==> current.Some?)
    ensures Applicable(ts, current, ru) <==> r.Ok? && (Arrival(ru).Some? ==> current.None?)
    ensures r.Ok? && r.value == NO_UPDATE ==> Arrival(ru).None? && Received(ts, current, ru) == current
    ensures r.Ok? && r.value != NO_UPDATE ==>
      && r.value.after == Received(ts, current, ru) && TypedIf(ts, r.value.after)
      && (Arrival(ru).Some? <==> r.value.before.None? && r.value.after.Some?)
  {
    r := AddRowUpdate2(ts, current, ru);
    ArrivesTyped(ts, current, ru);
  }

  lemma ArrivesTyped(ts: TableSchema, current: Option<Model>, ru: RowUpdate2)
    requires TypedIf(ts, current)
    ensures Arrival(ru).Some? && TypedRow(ts, Arrival(ru).value) ==> TypedModel(ts, ModelOf(ts, Arrival(ru).value))
    ensures ru.delta.Some? && current.Some? && (forall c :: c in ru.delta.value ==> !Refused(ts, current.value, ru.delta.value, true, c)) ==>
      TypedModel(ts, Changed(ts, current.value, ru.delta.value, true))
  {
    if ru.delta.Some? && current.Some? && (forall c :: c in ru.delta.value ==> !Refused(ts, current.value, ru.delta.value, true, c)) {
      forall c | c in ts
        ensures HasKind(Changed(ts, current.value, ru.delta.value, true)[c], ts[c].kind)
      {
        if c in ru.delta.value {
          assert !Refused(ts, current.value, ru.delta.value, true, c);
          ApplyKeepsKind(current.value[c], ru.delta.value[c], ts[c].kind);
        }
      }
    }
  }

  ghost predicate AllApplicable(ts: TableSchema, before: Rows, tu: TableUpdate)
    requires AllTyped(ts, before)
  {
    forall u :: u in tu ==> Applicable(ts, At(before, u), tu[u])
  }

  lemma PopulatedOne(ts: TableSchema, before: Rows, tu: TableUpdate, todo: set<Uuid>, now: Rows, u: Uuid, next: Rows)
    requires AllTyped(ts, before) && todo <= tu.Keys && u in todo
    requires Populated(ts, before, tu - todo, now)
    requires At(next, u) == Received(ts, At(before, u), tu[u]) && next - {u} == now - {u}
    ensures Populated(ts, before, tu - (todo - {u}), next)
  {
    var tu' := tu - (todo - {u});
    forall u'
      ensures At(next, u') == if u' in tu' then Received(ts, At(before, u'), tu'[u']) else At(before, u')
    {
      if u' != u {
        assert At(next, u') == At(next - {u}, u') && At(now, u') == At(now - {u}, u');
        assert u' in tu' <==> u' in tu - todo;
      }
    }
  }

  /** The notifications about one table: they are applied when each fits the row the replica has. */
  method PopulateTable(rc: RowCache, tu: TableUpdate, ghost h: Versions) returns (e: Option<PopulateError>, ghost h': Versions)
    requires Tracked(rc, h)
    modifies rc
    ensures Tracked(rc, h') && h <= h'
    ensures e.None? <==> AllApplicable(rc.su.ts, old(rc.cache), tu)
    ensures e.None? ==> Populated(rc.su.ts, old(rc.cache), tu, rc.cache)
  {
    h' := h;
    var todo := tu.Keys;
    ghost var before := rc.cache;
    assert tu - todo == map[];
    while todo != {}
      invariant todo <= tu.Keys
      invariant Tracked(rc, h') && h <= h'
      invariant Populated(rc.su.ts, before, tu - todo, rc.cache)
      invariant forall u :: u in tu && u !in todo ==> Applicable(rc.su.ts, At(before, u), tu[u])
      decreases todo
    {
      var u :| u in todo;
      ghost var now := rc.cache;
      assert At(now, u) == At(before, u);
      e, h' := PopulateRow(rc, u, tu[u], h');
      if e.Some? {
        return;
      }
      PopulatedOne(rc.su.ts, before, tu, todo, now, u, rc.cache);
      todo := todo - {u};
    }
    assert tu - todo == tu;
    e := None;
  }

  /** The caches of a replica, one for each table. */
  type Caches = map<Table, RowCache>
  type Histories = map<Table, Versions>

  ghost predicate ValidCaches(caches: Caches, hs: Histories)
    reads caches.Values
  {
    && (forall t, t' :: t in caches && t' in caches && caches[t] == caches[t'] ==> t == t')
    && (forall t :: t in caches ==> t in hs && Tracked(caches[t], hs[t]))
  }

  function Contents(caches: Caches): map<Table, Rows>
    reads caches.Values
  {
    map t | t in caches :: caches[t].cache
  }

  ghost predicate TableDone(ts: TableSchema, before: Rows, tus: TableUpdates, t: Table, now: Rows) {
    if t in tus then AllTyped(ts, before) && Populated(ts, before, tus[t], now) else now == before
  }

  /** The table after its notifications, if there are any. */
  method PopulateNext(caches: Caches, tus: TableUpdates, t: Table, ghost hs: Histories) returns (e: Option<PopulateError>, ghost hs': Histories)
    requires ValidCaches(caches, hs) && t in caches
    modifies caches[t]
    ensures ValidCaches(caches, hs')
    ensures e.None? <==> (t in tus ==> AllApplicable(caches[t].su.ts, old(caches[t].cache), tus[t]))
    ensures e.None? ==> TableDone(caches[t].su.ts, old(caches[t].cache), tus, t, caches[t].cache)
  {
    e, hs' := None, hs;
    if t in tus {
      ghost var h;
      e, h := PopulateTable(caches[t], tus[t], hs[t]);
      hs' := hs[t := h];
      forall t' | t' in caches
        ensures Tracked(caches[t'], hs'[t'])
      {
        if t' != t {
          assert caches[t'] != caches[t];
        }
      }
    }
  }

  /** What is done when the tables of `todo` are still to be handled. */
  ghost predicate TablesDone(caches: Caches, before: map<Table, Rows>, tus: TableUpdates, todo: set<Table>)
    reads caches.Values
  {
    Undone(caches, before, tus, todo) == {}
  }

  /** The tables of which it does not hold. */
  ghost function Undone(caches: Caches, before: map<Table, Rows>, tus: TableUpdates, todo: set<Table>): set<Table>
    reads caches.Values
  {
    set t | t in caches && !(t in before && DoneAt(caches[t], before[t], tus, t, t !in todo))
  }

  ghost predicate DoneAt(rc: RowCache, before: Rows, tus: TableUpdates, t: Table, done: bool)
    reads rc
  {
    if done then TableDone(rc.su.ts, before, tus, t, rc.cache) else rc.cache == before
  }

  /** Every notification fits the row the replica has. */
  ghost predicate Expected(caches: Caches, before: map<Table, Rows>, tus: TableUpdates) {
    Surprising(caches, before, tus) == {}
  }

  /** The tables with a notification that does not fit. */
  ghost function Surprising(caches: Caches, before: map<Table, Rows>, tus: TableUpdates): set<Table> {
    set t | t in caches && !ExpectedAt(caches[t].su.ts, before, tus, t)
  }

  ghost predicate ExpectedAt(ts: TableSchema, before: map<Table, Rows>, tus: TableUpdates, t: Table) {
    t in tus ==> t in before && AllTyped(ts, before[t]) && AllApplicable(ts, before[t], tus[t])
  }

  /** `Populate2`: each table in turn. */
  method Populate2(caches: Caches, tus: TableUpdates, ghost hs: Histories) returns (e: Option<PopulateError>, ghost hs': Histories)
    requires ValidCaches(caches, hs)
    modifies caches.Values
    ensures ValidCaches(caches, hs')
    ensures e.None? <==> Expected(caches, old(Contents(caches)), tus)
    ensures e.None? ==> TablesDone(caches, old(Contents(caches)), tus, {})
  {
    e, hs' := None, hs;
    ghost var before := Contents(caches);
    var todo := caches.Keys;
    while todo != {}
      invariant todo <= caches.Keys && e.None?
      invariant ValidCaches(caches, hs') && TablesDone(caches, before, tus, todo)
      invariant Surprising(caches, before, tus) <= todo
      decreases todo
    {
      var t :| t in todo;
      e, hs' := PopulateOne(caches, before, tus, todo, t, hs');
      if e.Some? {
        return;
      }
      todo := todo - {t};
    }
  }

  method PopulateOne(caches: Caches, ghost before: map<Table, Rows>, tus: TableUpdates, ghost todo: set<Table>, t: Table, ghost hs: Histories)
    returns (e: Option<PopulateError>, ghost hs': Histories)
    requires ValidCaches(caches, hs) && TablesDone(caches, before, tus, todo) && t in caches && t in todo
    modifies caches[t]
    ensures ValidCaches(caches, hs')
    ensures e.None? <==> t !in Surprising(caches, before, tus)
    ensures e.None? ==> TablesDone(caches, before, tus, todo - {t})
  {
    ghost var undone := Undone(caches, before, tus, todo);
    assert t !in undone;
    e, hs' := PopulateNext(caches, tus, t, hs);
    if e.None? {
      forall t' | t' in caches
        ensures t' in before && DoneAt(caches[t'], before[t'], tus, t', t' !in todo - {t})
      {
        if t' != t {
          assert t' !in undone && caches[t'] != caches[t];
        }
      }
    }
  }

  // ---- runs ----

  type Server = map<Table, Rows>

  /** The monitored tables are known to the server and to the replica, and every sort of update
      is selected. */
  ghost predicate Monitoring(request: Requests, caches: Caches) {
    request != map[] && request.Keys <= caches.Keys && forall t :: t in request ==> AllSelected(request[t])
  }

  /** The replica has exactly the server's rows of a table, equal on the monitored columns. */
  ghost predicate SameRows(cols: set<Column>, server: Rows, replica: Rows) {
    forall u :: SameRow(cols, At(server, u), At(replica, u))
  }

  ghost predicate Mirrors(request: Requests, server: Server, caches: Caches)
    reads caches.Values
  {
    forall t :: t in request && t in caches ==>
      t in server && SameRows(ColumnsOf(request[t]), server[t], caches[t].cache)
  }

  /** A transaction on one table: its accumulated updates lead from the old to the new rows, and
      the changes are ones the server may make. */
  ghost predicate TableStep(ts: TableSchema, us: Updates, t: Table, from: Rows, to: Rows) {
    Accumulated(us, t, from, to) && forall u :: MayChange(ts, At(from, u), At(to, u))
  }

  ghost predicate ServerStep(caches: Caches, us: Updates, from: Server, to: Server) {
    && Pruned(us)
    && forall t :: t in caches ==> t in from && t in to && TableStep(caches[t].su.ts, us, t, from[t], to[t])
  }

  /** One table: the filtered updates fit the replica and bring it to the new rows. */
  lemma TableReplicates(ts: TableSchema, req: Request, us: Updates, t: Table, from: Rows, to: Rows, replica: Rows)
    requires AllTyped(ts, replica) && AllSelected(req)
    requires TableStep(ts, us, t, from, to) && SameRows(ColumnsOf(req), from, replica)
    ensures t in us ==> AllApplicable(ts, replica, FilteredTable(req, us[t]))
    ensures t in us ==> forall now :: Populated(ts, replica, FilteredTable(req, us[t]), now) ==> SameRows(ColumnsOf(req), to, now)
    ensures t !in us ==> SameRows(ColumnsOf(req), to, replica)
  {
    forall u
      ensures t in us && u in FilteredTable(req, us[t]) ==>
        && Applicable(ts, At(replica, u), FilteredTable(req, us[t])[u])
        && SameRow(ColumnsOf(req), At(to, u), Received(ts, At(replica, u), FilteredTable(req, us[t])[u]))
      ensures !(t in us && u in FilteredTable(req, us[t])) ==> SameRow(ColumnsOf(req), At(to, u), At(replica, u))
    {
      assert Summarizes(Lookup(us, t, u), At(from, u), At(to, u)) && MayChange(ts, At(from, u), At(to, u));
      assert SameRow(ColumnsOf(req), At(from, u), At(replica, u));
      RowReplicates(ts, req, Lookup(us, t, u), At(from, u), At(to, u), At(replica, u));
    }
    if t in us {
      forall now | Populated(ts, replica, FilteredTable(req, us[t]), now)
        ensures SameRows(ColumnsOf(req), to, now)
      {
        forall u
          ensures SameRow(ColumnsOf(req), At(to, u), At(now, u))
        {
        }
      }
    }
  }

  /** What the notifications make of the contents of the replica is what the server has. */
  ghost predicate Leads(ts: TableSchema, cols: set<Column>, before: Rows, tus: TableUpdates, t: Table, to: Rows) {
    forall now :: TableDone(ts, before, tus, t, now) ==> SameRows(cols, to, now)
  }

  ghost predicate AllLead(caches: Caches, request: Requests, before: map<Table, Rows>, tus: TableUpdates, to: Server) {
    forall t :: t in request && t in caches ==>
      t in before && t in to && Leads(caches[t].su.ts, ColumnsOf(request[t]), before[t], tus, t, to[t])
  }

  lemma NotificationsLead(caches: Caches, hs: Histories, request: Requests, us: Updates, tus: TableUpdates, from: Server, to: Server)
    requires ValidCaches(caches, hs) && Monitoring(request, caches) && Filtered(request, us, tus)
    requires ServerStep(caches, us, from, to) && Mirrors(request, from, caches)
    ensures Expected(caches, Contents(caches), tus) && AllLead(caches, request, Contents(caches), tus, to)
  {
    forall t | t in request
      ensures AllTyped(caches[t].su.ts, caches[t].cache)
      ensures t in tus ==> AllApplicable(caches[t].su.ts, caches[t].cache, tus[t])
      ensures Leads(caches[t].su.ts, ColumnsOf(request[t]), caches[t].cache, tus, t, to[t])
    {
      assert Tracked(caches[t], hs[t]);
      TableReplicates(caches[t].su.ts, request[t], us, t, from[t], to[t], caches[t].cache);
    }
  }

  lemma LedToMirror(caches: Caches, request: Requests, before: map<Table, Rows>, tus: TableUpdates, to: Server)
    requires TablesDone(caches, before, tus, {}) && AllLead(caches, request, before, tus, to)
    ensures Mirrors(request, to, caches)
  {
    forall t | t in request && t in caches
      ensures t in to && SameRows(ColumnsOf(request[t]), to[t], caches[t].cache)
    {
      assert t !in Undone(caches, before, tus, {});
    }
  }

  /** The updates of one transaction, sent and applied: the replica follows. */
  method Follow(caches: Caches, request: Requests, us: Updates, ghost from: Server, ghost to: Server, ghost hs: Histories)
    returns (e: Option<PopulateError>, ghost hs': Histories)
    requires ValidCaches(caches, hs) && Monitoring(request, caches)
    requires ServerStep(caches, us, from, to) && Mirrors(request, from, caches)
    modifies caches.Values
    ensures e.None? && ValidCaches(caches, hs') && Mirrors(request, to, caches)
  {
    var filtered := Filter2(request, us);
    var tus := filtered.value;
    ghost var before := Contents(caches);
    NotificationsLead(caches, hs, request, us, tus, from, to);
    e, hs' := Populate2(caches, tus, hs);
    LedToMirror(caches, request, before, tus, to);
  }

  /** End-to-end replication: over any run of transactions the replica never fails, and ends equal
      to the server on the monitored tables and columns. */
  method Replicate(caches: Caches, request: Requests, run: seq<Updates>, ghost states: seq<Server>, ghost hs: Histories)
    returns (e: Option<PopulateError>, ghost hs': Histories)
    requires ValidCaches(caches, hs) && Monitoring(request, caches) && |states| == |run| + 1
    requires forall i :: 0 <= i < |run| ==> ServerStep(caches, run[i], states[i], states[i + 1])
    requires Mirrors(request, states[0], caches)
    modifies caches.Values
    ensures e.None? && ValidCaches(caches, hs') && Mirrors(request, states[|run|], caches)
  {
    e, hs' := None, hs;
    for i := 0 to |run|
      invariant e.None? && ValidCaches(caches, hs') && Mirrors(request, states[i], caches)
    {
      e, hs' := Follow(caches, request, run[i], states[i], states[i + 1], hs');
    }
  }

  // ---- where a run starts ----

  /** The reply to a monitor request: every row in full, whatever columns are asked for. */
  function InitialUpdates(rows: Rows): TableUpdate {
    map u | u in rows :: RowUpdate2(Some(RowOf(rows[u])), None, None, None, None, None)
  }

  /** An empty replica that applies the reply has every row, equal on the monitored columns exactly
      when these hold no all-zero UUID. */
  lemma InitialReplica(ts: TableSchema, cols: set<Column>, rows: Rows, now: Rows)
    requires AllTyped(ts, rows) && Populated(ts, map[], InitialUpdates(rows), now)
    ensures AllApplicable(ts, map[], InitialUpdates(rows))
    ensures SameRows(cols, rows, now) <==> forall u, c :: u in rows && c in cols && c in rows[u] ==> NormalValue(rows[u][c])
  {
    forall u | u in rows
      ensures Applicable(ts, None, InitialUpdates(rows)[u])
      ensures SameRow(cols, At(rows, u), At(now, u)) <==> forall c :: c in cols && c in rows[u] ==> NormalValue(rows[u][c])
    {
      assert At(now, u) == Received(ts, None, InitialUpdates(rows)[u]);
      FullRowArrives(ts, cols, rows[u]);
    }
    forall u | u !in rows
      ensures SameRow(cols, At(rows, u), At(now, u))
    {
      assert At(now, u) == None;
    }
  }

  lemma FullRowArrives(ts: TableSchema, cols: set<Column>, n: Model)
    requires TypedModel(ts, n)
    ensures TypedRow(ts, RowOf(n))
    ensures AgreeOn(cols, n, ModelOf(ts, RowOf(n))) <==> forall c :: c in cols && c in n ==> NormalValue(n[c])
  {
    InsertArrives(ts, cols, n);
    InsertArrives(ts, n.Keys, n);
    assert Restricted(RowOf(n), n.Keys) == RowOf(n);
    forall c | c in cols && c in n
      ensures ModelOf(ts, RowOf(n))[c] == ModelOf(ts, Restricted(RowOf(n), cols))[c]
    {
    }
  }

  // ---- what transactions do ----

  /** Operations never change an immutable column of an existing row. */
  lemma {:induction false} OperationsPermitted(ts: TableSchema, rows: Rows, ops: seq<Operation>, u: Uuid)
    requires AllTyped(ts, rows) && FreshInserts(rows, ops)
    requires u in rows && u in AfterAll(ts, rows, ops)
    ensures Permitted(ts, rows[u], AfterAll(ts, rows, ops)[u])
  {
    if ops != [] {
      var n := |ops| - 1;
      var (earlier, op) := (AfterAll(ts, rows, ops[..n]), ops[n]);
      assert FreshInserts(rows, ops[..n]);
      assert AfterAll(ts, rows, ops) == AfterOne(ts, earlier, op);
      if !op.Insert? {
        AffectedAt(ts, earlier, Matching(earlier, op.where).Keys, op, u);
        EffectPermitted(ts, earlier[u], op);
      }
      OperationsPermitted(ts, rows, ops[..n], u);
    }
  }

  lemma AccumulatedSteps(us: Updates, t: Table, from: Rows, to: Rows)
    requires Accumulated(us, t, from, to)
    ensures Steps(if t in us then us[t] else map[], from, to)
  {
    var later := if t in us then us[t] else map[];
    forall u
      ensures Summarizes(UpdateIn(later, u), At(from, u), At(to, u))
    {
      assert Lookup(us, t, u) == UpdateIn(later, u);
    }
  }

  /** The updates of a transaction are written to the database, which never fails. */
  method CommitUpdates(server: RowCache, us: Updates, table: Table, ghost to: Rows, ghost h: Versions) returns (ghost h': Versions)
    requires Tracked(server, h) && Accumulated(us, table, server.cache, to) && AllTyped(server.su.ts, to)
    modifies server
    ensures Tracked(server, h') && h' <= h + Present(to) && server.cache == to
  {
    var later := if table in us then us[table] else map[];
    AccumulatedSteps(us, table, server.cache, to);
    StepsApplied(later, server.cache, to);
    AllWritten(later, server.cache, to);
    VersionsPresent(later, server.cache, to);
    h' := h + VersionsOf(later);
    var e := ApplyCacheUpdate(server, later, h);
    assert e.None?;
  }

  lemma AllWritten(later: map<Uuid, ModelUpdate>, from: Rows, to: Rows)
    requires Steps(later, from, to)
    ensures forall u :: u in later ==> Applies(from, u, later[u])
  {
    forall u | u in later
      ensures Applies(from, u, later[u])
    {
      assert Summarizes(UpdateIn(later, u), At(from, u), At(to, u));
    }
  }
}
