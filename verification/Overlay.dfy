/** Reading and changing rows inside a transaction (database/transaction/transaction.go,
    cache/cache.go).

    One table is modelled.  A transaction keeps a cache of the rows it has touched, the UUIDs
    of the rows it has deleted, and the update accumulated for each row. */
module Overlay {
  import opened Values
  import opened Difference
  import opened Merge
  import opened Mutations
  import opened Operations
  import opened ModelUpdates
  import opened Cache
  import opened Query

  // ---- a cache and the versions of rows it has held ----

  type Versions = set<(Uuid, Model)>

  /** No version of a row ever shares a schema index value with a version of another row. */
  ghost predicate Apart(su: Setup, h: Versions) {
    && ValidSetup(su)
    && (forall p :: p in h ==> TypedModel(su.ts, p.1))
    && forall p, q, s :: p in h && q in h && p.0 != q.0 && s in su.specs && s.kind == SchemaIndex ==>
         IndexedBy(su, p.1, s) != IndexedBy(su, q.1, s)
  }

  /** The versions that are the rows themselves. */
  function Present(rows: Rows): Versions {
    set u | u in rows :: (u, rows[u])
  }

  ghost predicate Contained(cache: Rows, h: Versions) {
    forall u :: u in cache ==> (u, cache[u]) in h
  }

  /** While no two rows share a schema index value, the unchecked schema indexes are exact. */
  ghost predicate Tracked(rc: RowCache, h: Versions)
    reads rc
  {
    rc.Valid() && Contained(rc.cache, h) && (Apart(rc.su, h) ==> rc.Checked())
  }

  lemma ApartSubset(su: Setup, h: Versions, h': Versions)
    requires Apart(su, h') && h <= h'
    ensures Apart(su, h)
  {
  }

  lemma ApartAlone(su: Setup, h: Versions, cache: Rows, u: Uuid, m: Model)
    requires Apart(su, h) && Contained(cache, h) && (u, m) in h
    requires TypedModel(su.ts, m) && forall u :: u in cache ==> TypedModel(su.ts, cache[u])
    ensures Alone(su, cache, u, m)
  {
    forall s, u' | s in su.specs && s.kind == SchemaIndex && u' in cache && u' != u
      ensures IndexedBy(su, cache[u'], s) != IndexedBy(su, m, s)
    {
      assert (u', cache[u']) in h;
    }
  }

  /** One row written to the cache without checks. */
  method Write(rc: RowCache, u: Uuid, m: Model, ghost h: Versions)
    requires Tracked(rc, h) && TypedModel(rc.su.ts, m) && u !in rc.cache
    modifies rc
    ensures Tracked(rc, h + {(u, m)})
    ensures rc.cache == old(rc.cache)[u := m]
  {
    ghost var h' := h + {(u, m)};
    if Apart(rc.su, h') {
      ApartSubset(rc.su, h, h');
      ApartAlone(rc.su, h', rc.cache, u, m);
    }
    var _ := rc.Create(u, m, false);
  }

  method Rewrite(rc: RowCache, u: Uuid, m: Model, ghost h: Versions)
    requires Tracked(rc, h) && TypedModel(rc.su.ts, m) && u in rc.cache
    modifies rc
    ensures Tracked(rc, h + {(u, m)})
    ensures rc.cache == old(rc.cache)[u := m]
  {
    ghost var h' := h + {(u, m)};
    if Apart(rc.su, h') {
      ApartSubset(rc.su, h, h');
      ApartAlone(rc.su, h', rc.cache, u, m);
    }
    var _ := rc.Update(u, m, false);
  }

  // ---- applying updates to a cache ----

  function VersionsOf(later: map<Uuid, ModelUpdate>): Versions {
    set u | u in later && later[u].after.Some? :: (u, later[u].after.value)
  }

  predicate TypedUpdates(ts: TableSchema, later: map<Uuid, ModelUpdate>) {
    forall u :: u in later ==> later[u].after.Some? ==> TypedModel(ts, later[u].after.value)
  }

  /** One update of a row: it fails when it inserts a cached row or changes a missing one. */
  predicate Applies(cache: Rows, u: Uuid, mu: ModelUpdate) {
    if mu.before.None? && mu.after.Some? then u !in cache else u in cache
  }

  method ApplyOne(rc: RowCache, u: Uuid, mu: ModelUpdate, ghost h: Versions) returns (e: Option<CacheError>)
    requires Tracked(rc, h) && (mu.after.Some? ==> TypedModel(rc.su.ts, mu.after.value))
    modifies rc
    ensures e.None? <==> Applies(old(rc.cache), u, mu)
    ensures e.Some? ==> rc.cache == old(rc.cache)
    ensures e.None? ==> rc.cache == (if mu.after.Some? then old(rc.cache)[u := mu.after.value] else old(rc.cache) - {u})
    ensures Tracked(rc, if mu.after.Some? then h + {(u, mu.after.value)} else h)
  {
    ghost var h' := if mu.after.Some? then h + {(u, mu.after.value)} else h;
    if Apart(rc.su, h') {
      ApartSubset(rc.su, h, h');
    }
    e := None;
    if mu.before.None? && mu.after.Some? {
      if u in rc.cache {
        return Some(Inconsistent);
      }
      Write(rc, u, mu.after.value, h);
    } else if mu.after.Some? {
      if u !in rc.cache {
        return Some(Inconsistent);
      }
      Rewrite(rc, u, mu.after.value, h);
    } else {
      e := rc.Delete(u);
    }
  }

  /** The rows after updates. */
  function Applied(cache: Rows, later: map<Uuid, ModelUpdate>): Rows {
    map u | u in cache.Keys + later.Keys && (u in later ==> later[u].after.Some?) ::
      if u in later then later[u].after.value else cache[u]
  }

  lemma AppliedWith(cache: Rows, later: map<Uuid, ModelUpdate>, u: Uuid, mu: ModelUpdate)
    requires u !in later
    ensures var now := Applied(cache, later);
      && (u in now <==> u in cache)
      && Applied(cache, later[u := mu]) == if mu.after.Some? then now[u := mu.after.value] else now - {u}
  {
  }

  /** One more update applied. */
  lemma AppliedOne(cache: Rows, later: map<Uuid, ModelUpdate>, todo: set<Uuid>, u: Uuid)
    requires u in todo && todo <= later.Keys
    ensures var now := Applied(cache, later - todo);
      && (u in now <==> u in cache)
      && Applied(cache, later - (todo - {u})) ==
        (if later[u].after.Some? then now[u := later[u].after.value] else now - {u})
    ensures VersionsOf(later - (todo - {u})) ==
      VersionsOf(later - todo) + (if later[u].after.Some? then {(u, later[u].after.value)} else {})
    ensures VersionsOf(later - (todo - {u})) <= VersionsOf(later)
  {
    var (l1, l2) := (later - todo, later - (todo - {u}));
    assert l2 == l1[u := later[u]];
    AppliedWith(cache, l1, u, later[u]);
    forall p
      ensures p in VersionsOf(l2) <==> p in VersionsOf(l1) || (later[u].after.Some? && p == (u, later[u].after.value))
    {
      if p in VersionsOf(l2) {
        var u' :| u' in l2 && l2[u'].after.Some? && p == (u', l2[u'].after.value);
        assert u' in l1 || u' == u;
      }
      if p in VersionsOf(l1) {
        var u' :| u' in l1 && l1[u'].after.Some? && p == (u', l1[u'].after.value);
        assert u' in l2;
      }
      if later[u].after.Some? && p == (u, later[u].after.value) {
        assert u in l2;
      }
    }
  }

  lemma TrackedMore(rc: RowCache, h: Versions, h': Versions)
    requires Tracked(rc, h) && h <= h'
    ensures Tracked(rc, h')
  {
    if Apart(rc.su, h') {
      ApartSubset(rc.su, h, h');
    }
  }

  /** What holds when the updates of `todo` are still to be applied. */
  ghost predicate Applying(rc: RowCache, before: Rows, later: map<Uuid, ModelUpdate>, h: Versions, todo: set<Uuid>)
    reads rc
  {
    Tracked(rc, h + VersionsOf(later - todo)) && rc.cache == Applied(before, later - todo)
  }

  method ApplyNext(rc: RowCache, ghost before: Rows, later: map<Uuid, ModelUpdate>, ghost h: Versions, ghost todo: set<Uuid>, u: Uuid)
    returns (e: Option<CacheError>)
    requires Applying(rc, before, later, h, todo) && TypedUpdates(rc.su.ts, later) && u in todo && todo <= later.Keys
    modifies rc
    ensures e.None? <==> Applies(before, u, later[u])
    ensures e.None? ==> Applying(rc, before, later, h, todo - {u})
    ensures Tracked(rc, h + VersionsOf(later))
  {
    AppliedOne(before, later, todo, u);
    ghost var h1 := h + VersionsOf(later - todo);
    ghost var h2 := if later[u].after.Some? then h1 + {(u, later[u].after.value)} else h1;
    assert h2 == h + VersionsOf(later - (todo - {u}));
    e := ApplyOne(rc, u, later[u], h1);
    TrackedMore(rc, h2, h + VersionsOf(later));
  }

  /** `ApplyCacheUpdate` for one table. */
  method ApplyCacheUpdate(rc: RowCache, later: map<Uuid, ModelUpdate>, ghost h: Versions) returns (e: Option<CacheError>)
    requires Tracked(rc, h) && TypedUpdates(rc.su.ts, later)
    modifies rc
    ensures Tracked(rc, h + VersionsOf(later))
    ensures e.None? <==> forall u :: u in later ==> Applies(old(rc.cache), u, later[u])
    ensures e.None? ==> rc.cache == Applied(old(rc.cache), later)
  {
    ghost var before := rc.cache;
    var todo := later.Keys;
    NothingApplied(before, later, h);
    while todo != {}
      invariant todo <= later.Keys
      invariant Applying(rc, before, later, h, todo)
      invariant forall u :: u in later && u !in todo ==> Applies(before, u, later[u])
      decreases todo
    {
      var u :| u in todo;
      e := ApplyNext(rc, before, later, h, todo, u);
      if e.Some? {
        return;
      }
      todo := todo - {u};
    }
    assert later - todo == later;
    e := None;
  }

  lemma NothingApplied(cache: Rows, later: map<Uuid, ModelUpdate>, h: Versions)
    ensures Applied(cache, later - later.Keys) == cache && h + VersionsOf(later - later.Keys) == h
  {
    assert later - later.Keys == map[];
    assert VersionsOf(map[]) == {};
  }

  // ---- operations ----

  datatype TxnError = QueryFailed(QueryError) | WarmingFailed | OperationFailed(OpError) | MergeFailed | CacheFailed

  /** The `where` of an insert is empty; `row` and `mutations` belong to their operation. */
  datatype Operation =
    | Insert(uuid: Uuid, row: Row)
    | Select(where: seq<Condition>)
    | Update(where: seq<Condition>, row: Row)
    | Mutate(where: seq<Condition>, mutations: seq<Mutation>)
    | Delete(where: seq<Condition>)

  /** What an operation on existing rows makes of a row it applies to; None when it is refused. */
  function Effect(ts: TableSchema, m: Model, op: Operation): (r: Option<Option<Model>>)
    requires TypedModel(ts, m) && !op.Insert?
    ensures r.Some? && r.value.Some? ==> TypedModel(ts, r.value.value)
  {
    match op
    case Select(_) => Some(Some(m))
    case Update(_, row) =>
      if exists c :: c in row && Refused(ts, m, row, false, c) then None
      else ChangedTyped(ts, m, row); Some(Some(Changed(ts, m, row, false)))
    case Mutate(_, mus) =>
      var r := MutateAll(ts, m, mus);
      if r.Err? then None else Some(Some(r.value))
    case Delete(_) => Some(None)
  }

  lemma ChangedTyped(ts: TableSchema, m: Model, row: Row)
    requires TypedModel(ts, m) && forall c :: c in row ==> !Refused(ts, m, row, false, c)
    ensures TypedModel(ts, Changed(ts, m, row, false))
  {
    forall c | c in ts
      ensures HasKind(Changed(ts, m, row, false)[c], ts[c].kind)
    {
      assert c in row ==> !Refused(ts, m, row, false, c);
    }
  }

  /** Only mutable columns change. */
  predicate Permitted(ts: TableSchema, o: Model, n: Model)
    requires TypedModel(ts, o) && TypedModel(ts, n)
  {
    forall c :: c in ts && !ts[c].mutable ==> o[c] == n[c]
  }

  lemma {:induction false} MutatePermitted(ts: TableSchema, m: Model, mus: seq<Mutation>)
    requires TypedModel(ts, m) && MutateAll(ts, m, mus).Ok?
    ensures Permitted(ts, m, MutateAll(ts, m, mus).value)
  {
    if mus != [] {
      MutatePermitted(ts, m, mus[..|mus| - 1]);
    }
  }

  lemma EffectPermitted(ts: TableSchema, m: Model, op: Operation)
    requires TypedModel(ts, m) && !op.Insert?
    ensures Effect(ts, m, op).Some? && Effect(ts, m, op).value.Some? ==> Permitted(ts, m, Effect(ts, m, op).value.value)
  {
    match op
    case Select(_) =>
    case Delete(_) =>
    case Mutate(_, mus) =>
      if MutateAll(ts, m, mus).Ok? {
        MutatePermitted(ts, m, mus);
      }
    case Update(_, row) =>
      if Effect(ts, m, op).Some? {
        forall c | c in ts && !ts[c].mutable
          ensures Changed(ts, m, row, false)[c] == m[c]
        {
          assert c in row ==> !Refused(ts, m, row, false, c);
        }
      }
  }

  /** `AddOperation` on one existing row. */
  method AddOperation(ts: TableSchema, current: Model, op: Operation) returns (r: Result<ModelUpdate, OpError>)
    requires TypedModel(ts, current) && !op.Insert?
    ensures r.Err? <==> Effect(ts, current, op).None?
    ensures r.Ok? ==> Summarizes(r.value, Some(current), Effect(ts, current, op).value)
  {
    match op {
      case Select(_) => r := Ok(NO_UPDATE);
      case Update(_, row) => r := UpdateOperation(ts, current, row);
      case Mutate(_, mus) => r := MutateOperation(ts, current, mus);
      case Delete(_) => r := Ok(DeleteUpdate(current));
    }
  }

  /** The update of one row. */
  function UpdateIn(later: map<Uuid, ModelUpdate>, u: Uuid): ModelUpdate {
    if u in later then later[u] else NO_UPDATE
  }

  /** The updates of one operation: each row is taken from what it is to what it becomes, and a
      row that stays as it is has no update. */
  ghost predicate Steps(later: map<Uuid, ModelUpdate>, from: Rows, to: Rows) {
    && (forall u :: u in later ==> later[u].row.Some?)
    && (forall u :: Summarizes(UpdateIn(later, u), At(from, u), At(to, u)))
  }

  lemma StepsApplied(later: map<Uuid, ModelUpdate>, from: Rows, to: Rows)
    requires Steps(later, from, to)
    ensures to == Applied(from, later)
    ensures forall u :: u in later ==> later[u].before == At(from, u) && later[u].after == At(to, u)
  {
    forall u
      ensures At(to, u) == At(Applied(from, later), u)
      ensures u in later ==> later[u].before == At(from, u) && later[u].after == At(to, u)
    {
      assert Summarizes(UpdateIn(later, u), At(from, u), At(to, u));
    }
    forall u
      ensures u in to <==> u in Applied(from, later)
      ensures u in to ==> to[u] == Applied(from, later)[u]
    {
      assert At(to, u) == At(Applied(from, later), u);
    }
  }

  /** The rows after an operation on the rows of `hit`. */
  function Affected(ts: TableSchema, rows: Rows, hit: set<Uuid>, op: Operation): (r: Rows)
    requires !op.Insert? && forall u :: u in rows ==> TypedModel(ts, rows[u])
    ensures forall u :: u in r ==> u in rows && TypedModel(ts, r[u])
  {
    map u | u in rows && (u in hit ==> Effect(ts, rows[u], op) != Some(None)) ::
      if u in hit && Effect(ts, rows[u], op).Some? then Effect(ts, rows[u], op).value.value else rows[u]
  }

  /** The rows after an operation, by its meaning alone. */
  function AfterOne(ts: TableSchema, rows: Rows, op: Operation): (r: Rows)
    requires forall u :: u in rows ==> TypedModel(ts, rows[u])
    ensures forall u :: u in r ==> TypedModel(ts, r[u])
  {
    match op
    case Insert(uuid, row) => if TypedRow(ts, row) then rows[uuid := ModelOf(ts, row)] else rows
    case _ => Affected(ts, rows, Matching(rows, op.where).Keys, op)
  }

  ghost predicate AllTyped(ts: TableSchema, rows: Rows) {
    forall u :: u in rows ==> TypedModel(ts, rows[u])
  }

  /** No row that is still there has changed an immutable column. */
  ghost predicate AllPermitted(ts: TableSchema, from: Rows, to: Rows) {
    forall u :: u in from && u in to ==> TypedModel(ts, from[u]) && TypedModel(ts, to[u]) && Permitted(ts, from[u], to[u])
  }

  lemma AffectedPermitted(ts: TableSchema, from: Rows, view: Rows, hit: set<Uuid>, op: Operation)
    requires !op.Insert? && AllTyped(ts, view) && AllPermitted(ts, from, view)
    ensures AllPermitted(ts, from, Affected(ts, view, hit, op))
  {
    var to := Affected(ts, view, hit, op);
    forall u | u in from && u in to
      ensures TypedModel(ts, to[u]) && Permitted(ts, from[u], to[u])
    {
      AffectedAt(ts, view, hit, op, u);
      EffectPermitted(ts, view[u], op);
    }
  }

  ghost predicate AllNormal(rows: Rows) {
    forall u :: u in rows ==> Normal(rows[u])
  }

  /** Each row is what it was, what the operation makes of it, or the inserted one. */
  ghost predicate RowWise(ts: TableSchema, from: Rows, op: Operation, to: Rows) {
    forall u :: u in to ==>
      || (u in from && to[u] == from[u])
      || (op.Insert? && u == op.uuid && TypedRow(ts, op.row) && to[u] == ModelOf(ts, op.row))
      || (!op.Insert? && u in from && TypedModel(ts, from[u]) && Effect(ts, from[u], op) == Some(Some(to[u])))
  }

  lemma AffectedRowWise(ts: TableSchema, view: Rows, hit: set<Uuid>, op: Operation)
    requires !op.Insert? && AllTyped(ts, view)
    ensures RowWise(ts, view, op, Affected(ts, view, hit, op))
  {
    var to := Affected(ts, view, hit, op);
    forall u | u in to
      ensures u in view && (to[u] == view[u] || Effect(ts, view[u], op) == Some(Some(to[u])))
    {
      AffectedAt(ts, view, hit, op, u);
    }
  }

  lemma AfterRowWise(ts: TableSchema, rows: Rows, op: Operation)
    requires AllTyped(ts, rows)
    ensures RowWise(ts, rows, op, AfterOne(ts, rows, op))
  {
    if !op.Insert? {
      AffectedRowWise(ts, rows, Matching(rows, op.where).Keys, op);
    }
  }

  /** The updates of an operation on the rows of `hit`, none of which refuses it. */
  ghost predicate StepsFor(ts: TableSchema, view: Rows, hit: set<Uuid>, op: Operation, later: map<Uuid, ModelUpdate>) {
    StepsOf(ts, view, hit, op, later) && Accepted(ts, view, hit, op)
  }

  ghost predicate StepsOf(ts: TableSchema, view: Rows, hit: set<Uuid>, op: Operation, later: map<Uuid, ModelUpdate>) {
    && !op.Insert? && AllTyped(ts, view) && later.Keys <= hit <= view.Keys
    && Steps(later, view, Affected(ts, view, hit, op))
  }

  ghost predicate Accepted(ts: TableSchema, view: Rows, hit: set<Uuid>, op: Operation)
    requires !op.Insert? && AllTyped(ts, view) && hit <= view.Keys
  {
    forall u :: u in hit ==> Effect(ts, view[u], op).Some?
  }

  /** The updates of one operation on the rows it hits. */
  method BuildUpdates(ts: TableSchema, ghost view: Rows, rows: Rows, op: Operation)
    returns (r: Result<map<Uuid, ModelUpdate>, OpError>)
    requires !op.Insert? && AllTyped(ts, view) && AllTyped(ts, rows)
    requires SubMap(rows, view)
    ensures r.Err? <==> SomeRefuses(ts, rows, op)
    ensures r.Ok? ==> StepsFor(ts, view, rows.Keys, op, r.value)
  {
    var later: map<Uuid, ModelUpdate> := map[];
    var todo := rows.Keys;
    ghost var hit: set<Uuid> := {};
    NoSteps(ts, view, op);
    while todo != {}
      invariant hit == rows.Keys - todo && todo <= rows.Keys
      invariant StepsFor(ts, view, hit, op, later)
      decreases todo
    {
      var u :| u in todo;
      var e;
      e, later := BuildOne(ts, view, hit, rows[u], op, later, u);
      if e.Some? {
        return Err(e.value);
      }
      OneMoreHit(rows.Keys, todo, hit, u);
      hit := hit + {u};
      todo := todo - {u};
    }
    assert hit == rows.Keys;
    NoneRefuses(ts, view, rows, op);
    return Ok(later);
  }

  lemma OneMoreHit(all: set<Uuid>, todo: set<Uuid>, hit: set<Uuid>, u: Uuid)
    requires hit == all - todo && u in todo && todo <= all
    ensures hit + {u} == all - (todo - {u})
  {
  }

  /** A row refuses the operation. */
  ghost predicate SomeRefuses(ts: TableSchema, rows: Rows, op: Operation)
    requires !op.Insert? && AllTyped(ts, rows)
  {
    exists u :: u in rows && Effect(ts, rows[u], op).None?
  }

  lemma NoneRefuses(ts: TableSchema, view: Rows, rows: Rows, op: Operation)
    requires !op.Insert? && AllTyped(ts, view) && SubMap(rows, view) && Accepted(ts, view, rows.Keys, op)
    ensures AllTyped(ts, rows) && !SomeRefuses(ts, rows, op)
  {
  }

  method BuildOne(
    ts: TableSchema, ghost view: Rows, ghost hit: set<Uuid>, row: Model, op: Operation, later: map<Uuid, ModelUpdate>, u: Uuid)
    returns (e: Option<OpError>, later': map<Uuid, ModelUpdate>)
    requires StepsFor(ts, view, hit, op, later) && u in view && u !in hit && row == view[u]
    ensures e.Some? <==> Effect(ts, row, op).None?
    ensures e.None? ==> StepsFor(ts, view, hit + {u}, op, later')
  {
    var one := AddOperation(ts, row, op);
    if one.Err? {
      return Some(one.error), later;
    }
    OneMoreStep(ts, view, hit, op, later, u, one.value);
    OneMoreAccepted(ts, view, hit, op, u);
    return None, if one.value != NO_UPDATE then later[u := one.value] else later;
  }

  lemma NoSteps(ts: TableSchema, view: Rows, op: Operation)
    requires !op.Insert? && AllTyped(ts, view)
    ensures StepsFor(ts, view, {}, op, map[])
  {
    assert Affected(ts, view, {}, op) == view;
  }

  lemma AffectedAt(ts: TableSchema, view: Rows, hit: set<Uuid>, op: Operation, u: Uuid)
    requires !op.Insert? && forall u :: u in view ==> TypedModel(ts, view[u])
    ensures At(Affected(ts, view, hit, op), u) ==
      (if u in view && u in hit && Effect(ts, view[u], op).Some? then Effect(ts, view[u], op).value else At(view, u))
  {
  }

  lemma OneMoreStep(ts: TableSchema, view: Rows, hit: set<Uuid>, op: Operation, later: map<Uuid, ModelUpdate>, u: Uuid, mu: ModelUpdate)
    requires StepsOf(ts, view, hit, op, later) && u in view && u !in hit
    requires Effect(ts, view[u], op).Some? && Summarizes(mu, Some(view[u]), Effect(ts, view[u], op).value)
    ensures StepsOf(ts, view, hit + {u}, op, if mu != NO_UPDATE then later[u := mu] else later)
  {
    AffectedAt(ts, view, hit + {u}, op, u);
    AffectedOthers(ts, view, hit, op, u);
    StepsWith(later, view, Affected(ts, view, hit, op), Affected(ts, view, hit + {u}, op), u, mu);
  }

  lemma OneMoreAccepted(ts: TableSchema, view: Rows, hit: set<Uuid>, op: Operation, u: Uuid)
    requires !op.Insert? && AllTyped(ts, view) && hit <= view.Keys && Accepted(ts, view, hit, op)
    requires u in view && Effect(ts, view[u], op).Some?
    ensures Accepted(ts, view, hit + {u}, op)
  {
  }

  lemma AffectedOthers(ts: TableSchema, view: Rows, hit: set<Uuid>, op: Operation, u: Uuid)
    requires !op.Insert? && AllTyped(ts, view)
    ensures forall u' :: u' != u ==> At(Affected(ts, view, hit + {u}, op), u') == At(Affected(ts, view, hit, op), u')
  {
    forall u' | u' != u
      ensures At(Affected(ts, view, hit + {u}, op), u') == At(Affected(ts, view, hit, op), u')
    {
      AffectedAt(ts, view, hit, op, u');
      AffectedAt(ts, view, hit + {u}, op, u');
    }
  }

  /** The update of one more row. */
  lemma StepsWith(later: map<Uuid, ModelUpdate>, from: Rows, to: Rows, to': Rows, u: Uuid, mu: ModelUpdate)
    requires Steps(later, from, to) && u !in later
    requires Summarizes(mu, At(from, u), At(to', u)) && forall u' :: u' != u ==> At(to', u') == At(to, u')
    ensures Steps(if mu != NO_UPDATE then later[u := mu] else later, from, to')
  {
    var later' := if mu != NO_UPDATE then later[u := mu] else later;
    assert mu != NO_UPDATE ==> mu.row.Some?;
    assert UpdateIn(later', u) == mu;
    forall u' | u' != u
      ensures Summarizes(UpdateIn(later', u'), At(from, u'), At(to', u'))
    {
      assert UpdateIn(later', u') == UpdateIn(later, u');
    }
  }

  /** A row that matches refuses the operation. */
  ghost predicate Refusing(ts: TableSchema, rows: Rows, op: Operation) {
    && !op.Insert? && AllTyped(ts, rows)
    && exists u :: u in Matching(rows, op.where) && Effect(ts, rows[u], op).None?
  }

  lemma RefusedRow(ts: TableSchema, rows: Rows, op: Operation, hit: Rows)
    requires !op.Insert? && AllTyped(ts, rows) && hit == Matching(rows, op.where)
    ensures AllTyped(ts, hit) && (SomeRefuses(ts, hit, op) <==> Refusing(ts, rows, op))
  {
    if u :| u in hit && Effect(ts, hit[u], op).None? {
      assert u in Matching(rows, op.where) && hit[u] == rows[u];
    }
    if Refusing(ts, rows, op) {
      var u :| u in Matching(rows, op.where) && Effect(ts, rows[u], op).None?;
      assert u in hit && hit[u] == rows[u];
    }
  }

  /** The rows after a list of operations, one after the other. */
  function AfterAll(ts: TableSchema, rows: Rows, ops: seq<Operation>): (r: Rows)
    requires forall u :: u in rows ==> TypedModel(ts, rows[u])
    ensures forall u :: u in r ==> TypedModel(ts, r[u])
  {
    if ops == [] then rows else AfterOne(ts, AfterAll(ts, rows, ops[..|ops| - 1]), ops[|ops| - 1])
  }

  // ---- the overlay ----

  /** The database as the transaction sees it. */
  function Patched(db: Rows, txn: Rows, deleted: set<Uuid>): Rows {
    map u | u in db.Keys + txn.Keys && u !in deleted :: if u in txn then txn[u] else db[u]
  }

  /** Preferring the cached rows among the matching rows gives exactly the matching rows of the
      patched database, unless a row of the database matches only in its old form. */
  lemma OverlayExact(db: Rows, txn: Rows, deleted: set<Uuid>, inDb: Rows, inTxn: Rows, where: seq<Condition>)
    requires SubMap(inDb, Matching(db, where)) && SubMap(inTxn, Matching(txn, where))
    requires forall u :: u in inDb && u !in inTxn ==> u !in txn
    ensures SubMap((inDb + inTxn) - deleted, Matching(Patched(db, txn, deleted), where))
    ensures inDb == Matching(db, where) && inTxn == Matching(txn, where) ==>
      (inDb + inTxn) - deleted == Matching(Patched(db, txn, deleted), where)
  {
    assert (inDb + inTxn) - deleted == Patched(inDb, inTxn, deleted);
    OverlayPatched(db, txn, deleted, inDb, inTxn, where);
  }

  lemma OverlayPatched(db: Rows, txn: Rows, deleted: set<Uuid>, inDb: Rows, inTxn: Rows, where: seq<Condition>)
    requires SubMap(inDb, Matching(db, where)) && SubMap(inTxn, Matching(txn, where))
    requires forall u :: u in inDb && u !in inTxn ==> u !in txn
    ensures SubMap(Patched(inDb, inTxn, deleted), Matching(Patched(db, txn, deleted), where))
    ensures inDb == Matching(db, where) && inTxn == Matching(txn, where) ==>
      Patched(inDb, inTxn, deleted) == Matching(Patched(db, txn, deleted), where)
  {
    var (view, res) := (Patched(db, txn, deleted), Patched(inDb, inTxn, deleted));
    forall u | u in res
      ensures u in Matching(view, where) && Matching(view, where)[u] == res[u]
    {
      assert u in inTxn ==> u in Matching(txn, where);
      assert u in inDb ==> u in Matching(db, where);
    }
    if inDb == Matching(db, where) && inTxn == Matching(txn, where) {
      forall u | u in Matching(view, where)
        ensures u in res
      {
        assert u in txn ==> view[u] == txn[u];
      }
      SubMapEqual(res, Matching(view, where));
    }
  }

  lemma SubMapEqual(a: Rows, b: Rows)
    requires SubMap(a, b) && forall u :: u in b ==> u in a
    ensures a == b
  {
  }

  /** Caching rows of the database leaves the patched database as it is. */
  lemma WarmingUnseen(db: Rows, txn: Rows, deleted: set<Uuid>, warmed: Rows)
    requires SubMap(warmed, db) && warmed.Keys !! txn.Keys
    ensures Patched(db, txn + warmed, deleted) == Patched(db, txn, deleted)
  {
  }

  /** The rows copied when the rows of `todo` are still to be looked at. */
  function Copied(inDb: Rows, inTxn: Rows, todo: set<Uuid>): Rows {
    inDb - todo - inTxn.Keys
  }

  /** The cache after copying rows it did not hold. */
  ghost predicate Warmed(before: Rows, inDb: Rows, inTxn: Rows, todo: set<Uuid>, now: Rows) {
    now == before + Copied(inDb, inTxn, todo) && Copied(inDb, inTxn, todo).Keys !! before.Keys
  }

  lemma WarmNone(before: Rows, inDb: Rows, inTxn: Rows)
    ensures Warmed(before, inDb, inTxn, inDb.Keys, before)
  {
    assert Copied(inDb, inTxn, inDb.Keys) == map[];
  }

  lemma WarmOne(before: Rows, inDb: Rows, inTxn: Rows, todo: set<Uuid>, now: Rows, u: Uuid)
    requires Warmed(before, inDb, inTxn, todo, now) && u in todo && u in inDb
    ensures u !in inTxn ==> (u in now <==> u in before)
    ensures u !in inTxn && u !in now ==> Warmed(before, inDb, inTxn, todo - {u}, now[u := inDb[u]])
    ensures u in inTxn ==> Warmed(before, inDb, inTxn, todo - {u}, now)
  {
    if u in inTxn {
      assert Copied(inDb, inTxn, todo - {u}) == Copied(inDb, inTxn, todo);
    } else {
      assert Copied(inDb, inTxn, todo - {u}) == Copied(inDb, inTxn, todo)[u := inDb[u]];
    }
  }

  lemma WarmedView(db: Rows, txn: Rows, deleted: set<Uuid>, inDb: Rows, inTxn: Rows, left: set<Uuid>, now: Rows)
    requires Warmed(txn, inDb, inTxn, left, now) && SubMap(inDb, db)
    ensures Patched(db, now, deleted) == Patched(db, txn, deleted)
    ensures DeletedAsStored(db, txn, deleted) ==> DeletedAsStored(db, now, deleted)
    ensures txn.Keys <= now.Keys <= txn.Keys + db.Keys
    ensures left == {} && SubMap(inTxn, txn) ==> ((inDb + inTxn) - deleted).Keys <= now.Keys
  {
    var warmed := Copied(inDb, inTxn, left);
    assert SubMap(warmed, db);
    WarmingUnseen(db, txn, deleted, warmed);
    if left == {} && SubMap(inTxn, txn) {
      assert forall u :: u in inDb && u !in inTxn ==> u in warmed;
    }
  }

  /** A deleted row that is cached is cached as it is in the database. */
  ghost predicate DeletedAsStored(db: Rows, txn: Rows, deleted: set<Uuid>) {
    forall u :: u in deleted && u in txn ==> u in db && txn[u] == db[u]
  }

  lemma PresentSubset(a: Rows, b: Rows)
    requires SubMap(a, b)
    ensures Present(a) <= Present(b)
  {
  }

  /** Copies the rows found only in the database into the cache; fails when one of them is cached
      already, in a form that no longer matches. */
  method Warm(txn: RowCache, inDb: Rows, inTxn: Rows, ghost h: Versions) returns (e: Option<TxnError>, ghost h': Versions, ghost left: set<Uuid>)
    requires Tracked(txn, h) && forall u :: u in inDb ==> TypedModel(txn.su.ts, inDb[u])
    modifies txn
    ensures Tracked(txn, h') && h <= h' <= h + Present(inDb)
    ensures Warmed(old(txn.cache), inDb, inTxn, left, txn.cache)
    ensures e.None? ==> left == {} && forall u :: u in inDb && u !in inTxn ==> u !in old(txn.cache)
    ensures e.Some? ==> exists u :: u in inDb && u !in inTxn && u in old(txn.cache)
  {
    ghost var before := txn.cache;
    h' := h;
    var todo := inDb.Keys;
    WarmNone(before, inDb, inTxn);
    while todo != {}
      invariant todo <= inDb.Keys
      invariant Tracked(txn, h') && h <= h' <= h + Present(inDb)
      invariant Warmed(before, inDb, inTxn, todo, txn.cache)
      invariant forall u :: u in inDb && u !in todo && u !in inTxn ==> u !in before
      decreases todo
    {
      var u :| u in todo;
      WarmOne(before, inDb, inTxn, todo, txn.cache, u);
      if u !in inTxn {
        if u in txn.cache {
          e, left := Some(WarmingFailed), todo;
          return;
        }
        Write(txn, u, inDb[u], h');
        h' := h' + {(u, inDb[u])};
      }
      todo := todo - {u};
    }
    e, left := None, {};
  }

  /** The updates collected take every row from what it was to what it is. */
  ghost predicate Accumulated(us: Updates, t: Table, from: Rows, to: Rows) {
    Pruned(us) && forall u :: Summarizes(Lookup(us, t, u), At(from, u), At(to, u))
  }

  /** Updates that fit what the transaction sees: none brings a row back, and each row they change
      is cached. */
  ghost predicate Fits(later: map<Uuid, ModelUpdate>, db: Rows, txn: Rows, deleted: set<Uuid>) {
    forall u :: u in later ==>
      if later[u].before.Some? then u in txn && u !in deleted else u !in txn && u !in deleted && u !in db
  }

  lemma PatchedApplied(db: Rows, txn: Rows, deleted: set<Uuid>, later: map<Uuid, ModelUpdate>, gone: set<Uuid>)
    requires Fits(later, db, txn, deleted)
    requires forall u :: u in gone <==> u in later && later[u].after.None?
    ensures Patched(db, Applied(txn, later), deleted + gone) == Applied(Patched(db, txn, deleted), later)
    ensures DeletedAsStored(db, txn, deleted) ==> DeletedAsStored(db, Applied(txn, later), deleted + gone)
  {
  }

  /** What an operation writes are rows of what it leads to. */
  lemma VersionsPresent(later: map<Uuid, ModelUpdate>, from: Rows, to: Rows)
    requires Steps(later, from, to)
    ensures VersionsOf(later) <= Present(to)
  {
    StepsApplied(later, from, to);
    forall p | p in VersionsOf(later)
      ensures p in Present(to)
    {
      var u :| u in later && later[u].after.Some? && p == (u, later[u].after.value);
      assert At(to, u) == later[u].after;
    }
  }

  lemma AllApply(db: Rows, txn: Rows, deleted: set<Uuid>, later: map<Uuid, ModelUpdate>, to: Rows)
    requires Fits(later, db, txn, deleted) && Steps(later, Patched(db, txn, deleted), to)
    ensures forall u :: u in later ==> Applies(txn, u, later[u])
  {
    forall u | u in later
      ensures Applies(txn, u, later[u])
    {
      assert Summarizes(UpdateIn(later, u), At(Patched(db, txn, deleted), u), At(to, u));
    }
  }

  /** No row that was there and is gone comes back. */
  ghost predicate NoneRevived(from: Rows, via: Rows, to: Rows) {
    forall u :: u in from && u !in via ==> u !in to
  }

  lemma MergesAt(ts: TableSchema, us: Updates, t: Table, from: Rows, via: Rows, later: map<Uuid, ModelUpdate>, to: Rows, u: Uuid)
    requires Accumulated(us, t, from, via) && Steps(later, via, to)
    requires AllTyped(ts, from) && AllTyped(ts, to) && AllNormal(from) && NoneRevived(from, via, to)
    ensures MergeUpdate(Lookup(us, t, u), UpdateIn(later, u)).Ok?
    ensures Summarizes(MergeUpdate(Lookup(us, t, u), UpdateIn(later, u)).value, At(from, u), At(to, u))
  {
    assert Summarizes(Lookup(us, t, u), At(from, u), At(via, u));
    assert Summarizes(UpdateIn(later, u), At(via, u), At(to, u));
    if u in from && u in to {
      TypedAlike(ts, from[u], to[u]);
    }
    MergeStep(Lookup(us, t, u), At(from, u), At(via, u), UpdateIn(later, u), At(to, u));
  }

  lemma TypedAlike(ts: TableSchema, m: Model, n: Model)
    requires TypedModel(ts, m) && TypedModel(ts, n)
    ensures Alike(m, n)
  {
    forall c | c in m && c in n && m[c].AtomValue? && n[c].AtomValue?
      ensures AtomTypeOf(m[c].a) == AtomTypeOf(n[c].a)
    {
      assert HasKind(m[c], ts[c].kind) && HasKind(n[c], ts[c].kind);
    }
  }

  /** Merging the updates of one more operation. */
  lemma AccumulatedStep(ts: TableSchema, us: Updates, t: Table, from: Rows, via: Rows, later: map<Uuid, ModelUpdate>, to: Rows, us': Updates)
    requires Accumulated(us, t, from, via) && Steps(later, via, to)
    requires AllTyped(ts, from) && AllTyped(ts, to) && AllNormal(from) && NoneRevived(from, via, to)
    requires Pruned(us') && Merged(us, map[t := later], us')
    ensures Accumulated(us', t, from, to)
  {
    forall u
      ensures Summarizes(Lookup(us', t, u), At(from, u), At(to, u))
    {
      MergesAt(ts, us, t, from, via, later, to, u);
      assert RowMerged(us, map[t := later], us', t, u);
      assert Lookup(map[t := later], t, u) == UpdateIn(later, u);
    }
  }

  /** Merging updates of one table brings in no other. */
  lemma OneTable(us: Updates, t: Table, later: map<Uuid, ModelUpdate>, us': Updates)
    requires Merged(us, map[t := later], us') && Pruned(us) && Pruned(us') && us.Keys <= {t}
    ensures us'.Keys <= {t}
  {
    forall t' | t' in us'
      ensures t' == t
    {
      assert us'[t'] != map[];
      var u :| u in us'[t'];
      assert RowMerged(us, map[t := later], us', t', u);
      MergeNothing(us, t', u);
    }
  }

  /** Queries of a transaction with this history can be answered through indexes. */
  ghost predicate Trustworthy(db: RowCache, h: Versions, where: seq<Condition>)
    reads db
  {
    Usable(db.su, db.cache, db.indexes) && Benign(db.su, where) && Apart(db.su, h)
  }

  /** A row matches in the database, but no longer as the transaction sees it. */
  ghost predicate Stale(db: Rows, view: Rows, where: seq<Condition>) {
    exists u :: u in db && u in view && SatisfiesAll(u, db[u], where) && !SatisfiesAll(u, view[u], where)
  }

  /** An operation fails: an insert of values of the wrong type, a query that finds a row only in its
      old form, or a matching row that refuses the operation. */
  ghost predicate Fails(ts: TableSchema, db: Rows, view: Rows, op: Operation) {
    if op.Insert? then !TypedRow(ts, op.row) else Stale(db, view, op.where) || Refusing(ts, view, op)
  }

  ghost predicate Proper(ts: TableSchema, op: Operation) {
    !op.Insert? ==> ProperConditions(ts, op.where)
  }

  /** Every condition has a value of its column's type and a function its column supports. */
  predicate ProperConditions(ts: TableSchema, where: seq<Condition>) {
    forall c :: c in where ==> TypedCondition(ts, c) && SupportedCondition(ts, c)
  }

  /** Warming finds a row in its way exactly when one matches only in its old form. */
  lemma StaleRow(db: Rows, txn: Rows, deleted: set<Uuid>, where: seq<Condition>, inDb: Rows, inTxn: Rows)
    requires inDb == Matching(db, where) && inTxn == Matching(txn, where) && DeletedAsStored(db, txn, deleted)
    ensures (exists u :: u in inDb && u !in inTxn && u in txn) <==> Stale(db, Patched(db, txn, deleted), where)
  {
    var view := Patched(db, txn, deleted);
    if u :| u in inDb && u !in inTxn && u in txn {
      assert u !in deleted;
      assert u in view && view[u] == txn[u];
    }
    if u :| u in db && u in view && SatisfiesAll(u, db[u], where) && !SatisfiesAll(u, view[u], where) {
      assert u in txn && view[u] == txn[u];
      assert u in inDb && u !in inTxn;
    }
  }

  class Transaction {
    const table: Table
    const db: RowCache
    const txn: RowCache
    const updates: UpdateSet

    var deleted: set<Uuid>

    /** Every version of a row the cache of the transaction has held. */
    ghost var history: Versions

    constructor (table: Table, db: RowCache)
      requires db.Valid() && AllNormal(db.cache)
      ensures Valid() && fresh(txn) && fresh(updates)
      ensures this.db == db && this.table == table && View() == db.cache && deleted == {} && txn.cache == map[]
      ensures history == {}
    {
      this.table, this.db := table, db;
      this.deleted, this.history := {}, {};
      this.txn := new RowCache(db.su);
      this.updates := new UpdateSet();
      new;
      assert View() == db.cache;
    }

    ghost function View(): Rows
      reads this, db, txn
    {
      Patched(db.cache, txn.cache, deleted)
    }

    ghost predicate Valid()
      reads this, db, txn, updates
    {
      && db != txn && db.Valid() && txn.su == db.su
      && Tracked(txn, history)
      && AllNormal(db.cache)
      && DeletedAsStored(db.cache, txn.cache, deleted)
      && Accumulated(updates.updates, table, db.cache, View())
      && AllPermitted(db.su.ts, db.cache, View()) && updates.updates.Keys <= {table}
    }

    /** Queries of the transaction can be answered through indexes. */
    ghost predicate Trusted(where: seq<Condition>)
      reads this, db
    {
      Trustworthy(db, history, where)
    }

    /** `rowsFromTransactionCacheAndDatabase`. */
    method RowsFromTransactionCacheAndDatabase(where: seq<Condition>) returns (r: Result<Rows, TxnError>)
      requires Valid()
      modifies this`history, txn
      ensures Valid() && View() == old(View())
      ensures history <= old(history) + Present(db.cache)
      ensures txn.cache.Keys >= old(txn.cache.Keys) && txn.cache.Keys <= old(txn.cache.Keys) + db.cache.Keys
      ensures r.Ok? ==> r.value.Keys <= txn.cache.Keys
      ensures r.Ok? ==> SubMap(r.value, Matching(View(), where))
      ensures r.Ok? && old(Trusted(where)) ==> r.value == Matching(View(), where)
      ensures ProperConditions(db.su.ts, where) && old(Trusted(where)) ==> (r.Err? <==> Stale(db.cache, View(), where))
    {
      var rows := Query(where);
      if rows.Err? {
        return Err(QueryFailed(rows.error));
      }
      var (inDb, inTxn) := rows.value;
      ghost var cached := txn.cache;
      if old(Trusted(where)) {
        StaleRow(db.cache, cached, deleted, where, inDb, inTxn);
      }
      var e := WarmCache(inDb, inTxn);
      if e.Some? {
        return Err(e.value);
      }
      OverlayExact(db.cache, cached, deleted, inDb, inTxn, where);
      r := Ok((inDb + inTxn) - deleted);
    }

    /** The cache is warmed, and the transaction sees the same rows as before. */
    method WarmCache(inDb: Rows, inTxn: Rows) returns (e: Option<TxnError>)
      requires Valid() && SubMap(inDb, db.cache)
      modifies this`history, txn
      ensures Valid() && View() == old(View())
      ensures history <= old(history) + Present(db.cache)
      ensures old(txn.cache).Keys <= txn.cache.Keys <= old(txn.cache).Keys + db.cache.Keys
      ensures e.None? ==> forall u :: u in inDb && u !in inTxn ==> u !in old(txn.cache)
      ensures e.None? && SubMap(inTxn, old(txn.cache)) ==> ((inDb + inTxn) - deleted).Keys <= txn.cache.Keys
      ensures e.Some? ==> exists u :: u in inDb && u !in inTxn && u in old(txn.cache)
    {
      ghost var cached := txn.cache;
      ghost var left, h;
      e, h, left := Warm(txn, inDb, inTxn, history);
      history := h;
      PresentSubset(inDb, db.cache);
      WarmedView(db.cache, cached, deleted, inDb, inTxn, left, txn.cache);
    }

    /** The matching rows of the database and of the cache. */
    method Query(where: seq<Condition>) returns (r: Result<(Rows, Rows), QueryError>)
      requires Valid()
      ensures r.Ok? ==> SubMap(r.value.0, db.cache) && SubMap(r.value.1, txn.cache)
      ensures r.Ok? ==> SubMap(r.value.0, Matching(db.cache, where)) && SubMap(r.value.1, Matching(txn.cache, where))
      ensures r.Ok? && Trusted(where) ==> r.value == (Matching(db.cache, where), Matching(txn.cache, where))
      ensures ProperConditions(db.su.ts, where) ==> r.Ok?
    {
      var fromTxn := RowsByCondition(txn, where);
      if fromTxn.Err? {
        return Err(fromTxn.error);
      }
      var fromDb := RowsByCondition(db, where);
      if fromDb.Err? {
        return Err(fromDb.error);
      }
      assert Trusted(where) ==> Usable(txn.su, txn.cache, txn.indexes);
      r := Ok((fromDb.value, fromTxn.value));
    }

    /** Merges the updates of one operation and applies them to the cache; neither can fail. */
    method ApplyUpdates(later: map<Uuid, ModelUpdate>, gone: set<Uuid>, ghost to: Rows)
      requires Valid() && Steps(later, View(), to) && Fits(later, db.cache, txn.cache, deleted)
      requires AllTyped(db.su.ts, to) && AllPermitted(db.su.ts, db.cache, to)
      requires forall u :: u in gone <==> u in later && later[u].after.None?
      modifies this, txn, updates
      ensures Valid() && View() == to
      ensures deleted == old(deleted) + gone && history <= old(history) + Present(to)
      ensures txn.cache == Applied(old(txn.cache), later)
    {
      ghost var cached := txn.cache;
      StepsApplied(later, View(), to);
      NoRevival(later, to);
      PatchedApplied(db.cache, cached, deleted, later, gone);
      MergeUpdates(later, to);
      WriteUpdates(later, View(), to);
      deleted := deleted + gone;
    }

    /** Writes the updates of one operation to the cache, where they all apply. */
    method WriteUpdates(later: map<Uuid, ModelUpdate>, ghost via: Rows, ghost to: Rows)
      requires db != txn && txn.su == db.su && Tracked(txn, history)
      requires via == View() && Steps(later, via, to) && Fits(later, db.cache, txn.cache, deleted) && AllTyped(db.su.ts, to)
      modifies this`history, txn
      ensures txn.su == db.su && Tracked(txn, history) && txn.cache == Applied(old(txn.cache), later)
      ensures history <= old(history) + Present(to)
    {
      StepsApplied(later, via, to);
      AllApply(db.cache, txn.cache, deleted, later, to);
      VersionsPresent(later, via, to);
      var e := ApplyCacheUpdate(txn, later, history);
      assert e.None?;
      history := history + VersionsOf(later);
    }

    lemma NoRevival(later: map<Uuid, ModelUpdate>, to: Rows)
      requires Valid() && Steps(later, View(), to) && Fits(later, db.cache, txn.cache, deleted)
      ensures NoneRevived(db.cache, View(), to)
    {
      forall u | u in db.cache && u !in View()
        ensures u !in to
      {
        assert Summarizes(UpdateIn(later, u), At(View(), u), At(to, u));
      }
    }

    method MergeUpdates(later: map<Uuid, ModelUpdate>, ghost to: Rows)
      requires Valid() && Steps(later, View(), to) && NoneRevived(db.cache, View(), to)
      requires AllTyped(db.su.ts, to)
      modifies updates
      ensures Accumulated(updates.updates, table, db.cache, to) && updates.updates.Keys <= {table}
    {
      ghost var us := updates.updates;
      var me := updates.MergeTable(table, later);
      if me.Some? {
        ghost var u :| u in later && MergeUpdate(Lookup(us, table, u), later[u]).Err?;
        MergesAt(db.su.ts, us, table, db.cache, View(), later, to, u);
        assert false;
      }
      AccumulatedStep(db.su.ts, us, table, db.cache, View(), later, to, updates.updates);
      OneTable(us, table, later, updates.updates);
    }

    /** The UUID of an insert is new to the database and to the transaction. */
    ghost predicate Fresh(op: Operation)
      reads this, db, txn
    {
      op.Insert? ==> op.uuid !in db.cache && op.uuid !in txn.cache && op.uuid !in deleted
    }

    /** Insert: the row is typed and new. */
    method Insert(uuid: Uuid, row: Row) returns (e: Option<TxnError>)
      requires Valid() && Fresh(Operation.Insert(uuid, row))
      modifies this, txn, updates
      ensures Valid() && deleted == old(deleted)
      ensures history <= old(history) + Present(View())
      ensures e.Some? <==> !TypedRow(db.su.ts, row)
      ensures e.None? ==> View() == old(View())[uuid := ModelOf(db.su.ts, row)]
      ensures e.Some? ==> View() == old(View())
      ensures txn.cache.Keys <= old(txn.cache).Keys + {uuid}
    {
      var update := InsertOperation(db.su.ts, row);
      if update.Err? {
        return Some(OperationFailed(update.error));
      }
      ghost var to := View()[uuid := ModelOf(db.su.ts, row)];
      ViewTyped();
      InsertSteps(View(), uuid, update.value, to);
      ApplyUpdates(map[uuid := update.value], {}, to);
      return None;
    }

    /** The rows an operation hits and the updates it makes of them. */
    method Prepare(op: Operation) returns (r: Result<(set<Uuid>, map<Uuid, ModelUpdate>), TxnError>)
      requires Valid() && !op.Insert?
      modifies this`history, txn
      ensures Valid() && View() == old(View())
      ensures history <= old(history) + Present(db.cache)
      ensures txn.cache.Keys <= old(txn.cache).Keys + db.cache.Keys
      ensures r.Ok? ==> StepsFor(db.su.ts, View(), r.value.0, op, r.value.1) && r.value.0 <= txn.cache.Keys
      ensures r.Ok? && old(Trusted(op.where)) ==> r.value.0 == Matching(View(), op.where).Keys
      ensures ProperConditions(db.su.ts, op.where) && old(Trusted(op.where)) ==> (r.Err? <==> Fails(db.su.ts, db.cache, View(), op))
    {
      ViewTyped();
      var rows := RowsFromTransactionCacheAndDatabase(op.where);
      if rows.Err? {
        return Err(rows.error);
      }
      if old(Trusted(op.where)) {
        RefusedRow(db.su.ts, View(), op, rows.value);
      }
      var later := BuildUpdates(db.su.ts, View(), rows.value, op);
      if later.Err? {
        return Err(OperationFailed(later.error));
      }
      return Ok((rows.value.Keys, later.value));
    }

    /** Select, update, mutate and delete: only rows that match are affected and, when queries
        can be answered through indexes, all of them. */
    method OnRows(op: Operation) returns (e: Option<TxnError>)
      requires Valid() && !op.Insert?
      modifies this, txn, updates
      ensures Valid()
      ensures history <= old(history) + Present(db.cache) + Present(View())
      ensures e.Some? ==> View() == old(View()) && deleted == old(deleted)
      ensures e.None? && old(Trusted(op.where)) ==> View() == AfterOne(db.su.ts, old(View()), op)
      ensures ProperConditions(db.su.ts, op.where) && old(Trusted(op.where)) ==>
        (e.Some? <==> Fails(db.su.ts, db.cache, old(View()), op))
      ensures e.None? ==> RowWise(db.su.ts, old(View()), op, View())
      ensures txn.cache.Keys + deleted <= old(txn.cache).Keys + old(deleted) + db.cache.Keys
    {
      var prepared := Prepare(op);
      if prepared.Err? {
        return Some(prepared.error);
      }
      Finish(op, prepared.value.0, prepared.value.1);
      return None;
    }

    /** The rows an operation hits are changed. */
    method Finish(op: Operation, hit: set<Uuid>, later: map<Uuid, ModelUpdate>)
      requires Valid() && StepsFor(db.su.ts, View(), hit, op, later) && hit <= txn.cache.Keys
      modifies this, txn, updates
      ensures Valid() && AllTyped(db.su.ts, old(View())) && View() == Affected(db.su.ts, old(View()), hit, op)
      ensures history <= old(history) + Present(View())
      ensures RowWise(db.su.ts, old(View()), op, View())
      ensures txn.cache.Keys <= old(txn.cache).Keys && deleted <= old(deleted) + old(txn.cache).Keys
    {
      ghost var view := View();
      AffectedPermitted(db.su.ts, db.cache, view, hit, op);
      AffectedRowWise(db.su.ts, view, hit, op);
      AffectedGone(db.su.ts, view, hit, op, later);
      AffectedFits(db.su.ts, view, hit, op, later, db.cache, txn.cache, deleted);
      ApplyUpdates(later, if op.Delete? then hit else {}, Affected(db.su.ts, view, hit, op));
    }

    method Perform(op: Operation) returns (e: Option<TxnError>)
      requires Valid() && Fresh(op)
      modifies this, txn, updates
      ensures Valid()
      ensures history <= old(history) + Present(db.cache) + Present(View())
      ensures e.Some? ==> View() == old(View())
      ensures e.None? && (op.Insert? || old(Trusted(op.where))) ==> View() == AfterOne(db.su.ts, old(View()), op)
      ensures Proper(db.su.ts, op) && (op.Insert? || old(Trusted(op.where))) ==>
        (e.Some? <==> Fails(db.su.ts, db.cache, old(View()), op))
      ensures e.None? ==> RowWise(db.su.ts, old(View()), op, View())
      ensures txn.cache.Keys + deleted <= old(txn.cache).Keys + old(deleted) + db.cache.Keys + Inserted([op])
    {
      if op.Insert? {
        e := Insert(op.uuid, op.row);
        assert op == [op][0];
      } else {
        e := OnRows(op);
      }
    }

    lemma ViewTyped()
      requires Valid()
      ensures AllTyped(db.su.ts, View())
    {
    }
  }

  /** A row deleted in a transaction and cached again by a query, as it is in the database, hides a row
      of the transaction that has taken over its value of a schema index: the transaction sees that
      row and it satisfies the condition, and the index of the cache does not find it. */
  method RewarmedRowHides(t: Transaction, gone: Uuid, other: Uuid, s: IndexSpec, c: Condition)
    returns (found: Result<Rows, QueryError>)
    requires t.Valid() && gone in t.deleted && gone in t.db.cache && gone !in t.txn.cache
    requires other in t.txn.cache && other in t.View() && Satisfies(other, t.txn.cache[other], c)
    requires s in t.db.su.specs && s.kind == SchemaIndex && Looked(t.db.su.ts, [c], s)
    requires IndexedBy(t.db.su, t.txn.cache[other], s) == IndexedBy(t.db.su, t.db.cache[gone], s)
    modifies t.txn
    ensures t.View() == old(t.View()) && other in Matching(t.View(), [c])
    ensures found.Ok? ==> other !in found.value
  {
    ghost var cached := t.txn.cache;
    SeenMatches(t.db.cache, cached, t.deleted, other, c);
    found := WriteHides(t.txn, gone, t.db.cache[gone], other, s, c);
    DeletedUnseen(t.db.cache, cached, t.deleted, gone, t.db.cache[gone]);
  }

  lemma SeenMatches(db: Rows, txn: Rows, deleted: set<Uuid>, u: Uuid, c: Condition)
    requires u in txn && u in Patched(db, txn, deleted) && Satisfies(u, txn[u], c)
    ensures u in Matching(Patched(db, txn, deleted), [c])
  {
    assert forall x :: x in [c] ==> x == c;
  }

  lemma DeletedUnseen(db: Rows, txn: Rows, deleted: set<Uuid>, gone: Uuid, m: Model)
    requires gone in deleted
    ensures Patched(db, txn[gone := m], deleted) == Patched(db, txn, deleted)
  {
  }

  /** Writing a row without checks hides another one with its value of a schema index. */
  method WriteHides(rc: RowCache, gone: Uuid, stored: Model, other: Uuid, s: IndexSpec, c: Condition)
    returns (found: Result<Rows, QueryError>)
    requires rc.Valid() && TypedModel(rc.su.ts, stored) && gone !in rc.cache
    requires other in rc.cache && Satisfies(other, rc.cache[other], c)
    requires s in rc.su.specs && s.kind == SchemaIndex && Looked(rc.su.ts, [c], s)
    requires IndexedBy(rc.su, rc.cache[other], s) == IndexedBy(rc.su, stored, s)
    modifies rc
    ensures rc.cache == old(rc.cache)[gone := stored]
    ensures found.Ok? ==> other !in found.value
  {
    HiddenValue(rc.su, other, rc.cache[other], c, s);
    ghost var before := rc.indexes;
    var e := rc.Create(gone, stored, false);
    OnlyWritten(rc.su, before, rc.indexes, gone, stored, s, c);
    found := RowsByCondition(rc, [c]);
  }

  lemma OnlyWritten(su: Setup, before: Indexes, after: Indexes, u: Uuid, m: Model, s: IndexSpec, c: Condition)
    requires TypedModel(su.ts, m) && Looked(su.ts, [c], s) && s.kind == SchemaIndex && NameOf(s) in before && NameOf(s) in after
    requires after[NameOf(s)] == AddedFor(su, before, u, m, s)
    requires TypedModel(su.ts, Built(su.ts, [c])) && IndexedBy(su, Built(su.ts, [c]), s) == IndexedBy(su, m, s)
    ensures LookedUp(su, after, [c], s) == {u}
  {
  }

  /** The row that a condition builds has the index value of a row that satisfies it. */
  lemma HiddenValue(su: Setup, u: Uuid, m: Model, c: Condition, s: IndexSpec)
    requires TypedModel(su.ts, m) && Looked(su.ts, [c], s) && Satisfies(u, m, c) && s in su.specs
    ensures TypedModel(su.ts, Built(su.ts, [c])) && IndexedBy(su, Built(su.ts, [c]), s) == IndexedBy(su, m, s)
    ensures Indexable(c)
  {
    assert c in [c];
    SingleIncludesBenign(su, [c]);
    assert Sublist([], []) && Sublist([c], [c]);
    LookupExact(su.ts, u, m, [c], s);
    SameHashedValues(su.ts, Built(su.ts, [c]), m, s.columns);
  }

  lemma HitRow(ts: TableSchema, view: Rows, hit: set<Uuid>, op: Operation, later: map<Uuid, ModelUpdate>, u: Uuid)
    requires StepsFor(ts, view, hit, op, later) && u in hit
    ensures Summarizes(UpdateIn(later, u), Some(view[u]), Effect(ts, view[u], op).value)
  {
    AffectedAt(ts, view, hit, op, u);
    assert Summarizes(UpdateIn(later, u), At(view, u), At(Affected(ts, view, hit, op), u));
  }

  lemma DeleteIsGone(ts: TableSchema, m: Model, op: Operation)
    requires !op.Insert? && TypedModel(ts, m) && Effect(ts, m, op).Some?
    ensures op.Delete? <==> Effect(ts, m, op).value.None?
  {
  }

  /** The rows that go are exactly the rows a delete hits. */
  lemma AffectedGone(ts: TableSchema, view: Rows, hit: set<Uuid>, op: Operation, later: map<Uuid, ModelUpdate>)
    requires StepsFor(ts, view, hit, op, later)
    ensures forall u :: u in (if op.Delete? then hit else {}) <==> u in later && later[u].after.None?
  {
    forall u | u in hit
      ensures op.Delete? ==> u in later && later[u].after.None?
      ensures !op.Delete? && u in later ==> later[u].after.Some?
    {
      HitRow(ts, view, hit, op, later, u);
      DeleteIsGone(ts, view[u], op);
    }
  }

  lemma AffectedFits(ts: TableSchema, view: Rows, hit: set<Uuid>, op: Operation, later: map<Uuid, ModelUpdate>, db: Rows, txn: Rows, deleted: set<Uuid>)
    requires StepsFor(ts, view, hit, op, later) && view == Patched(db, txn, deleted) && hit <= txn.Keys
    ensures Fits(later, db, txn, deleted)
    ensures Applied(txn, later).Keys <= txn.Keys
  {
    forall u | u in later
      ensures later[u].before.Some?
    {
      HitRow(ts, view, hit, op, later, u);
    }
  }

  lemma InsertSteps(view: Rows, uuid: Uuid, mu: ModelUpdate, to: Rows)
    requires uuid !in view && to.Keys == view.Keys + {uuid} && to == view[uuid := to[uuid]]
    requires mu == InsertUpdate(to[uuid])
    ensures Steps(map[uuid := mu], view, to)
  {
    forall u
      ensures Summarizes(UpdateIn(map[uuid := mu], u), At(view, u), At(to, u))
    {
    }
  }

  function Inserted(ops: seq<Operation>): set<Uuid> {
    set i | 0 <= i < |ops| && ops[i].Insert? :: ops[i].uuid
  }

  /** The UUIDs of inserts are distinct and not in the database. */
  predicate FreshInserts(db: Rows, ops: seq<Operation>) {
    forall i :: 0 <= i < |ops| && ops[i].Insert? ==>
      ops[i].uuid !in db && forall j :: 0 <= j < i && ops[j].Insert? ==> ops[j].uuid != ops[i].uuid
  }

  /** Every version of a row that a list of operations is meant to lead to. */
  function Planned(ts: TableSchema, rows: Rows, ops: seq<Operation>): Versions
    requires AllTyped(ts, rows)
  {
    if ops == [] then Present(rows) else Planned(ts, rows, ops[..|ops| - 1]) + Present(AfterAll(ts, rows, ops))
  }

  /** The queries of a list of operations can be answered through indexes: those of the database are
      exact, no lookup loses a key, and no two rows, in whatever version, share a schema index
      value. */
  ghost predicate Plannable(su: Setup, rows: Rows, indexes: Indexes, ops: seq<Operation>) {
    && Usable(su, rows, indexes) && AllTyped(su.ts, rows)
    && (forall i :: 0 <= i < |ops| && !ops[i].Insert? ==> Benign(su, ops[i].where))
    && Apart(su, Planned(su.ts, rows, ops))
  }

  lemma PlannedNext(ts: TableSchema, rows: Rows, ops: seq<Operation>, n: nat)
    requires n < |ops| && AllTyped(ts, rows)
    ensures AfterAll(ts, rows, ops[..n + 1]) == AfterOne(ts, AfterAll(ts, rows, ops[..n]), ops[n])
    ensures Planned(ts, rows, ops[..n + 1]) == Planned(ts, rows, ops[..n]) + Present(AfterAll(ts, rows, ops[..n + 1]))
  {
    assert ops[..n + 1][..n] == ops[..n];
  }

  lemma {:induction false} PlannedStart(ts: TableSchema, rows: Rows, ops: seq<Operation>)
    requires AllTyped(ts, rows)
    ensures Present(rows) <= Planned(ts, rows, ops)
  {
    if ops != [] {
      PlannedStart(ts, rows, ops[..|ops| - 1]);
    }
  }

  /** What the operations up to some point lead to is part of the plan. */
  lemma {:induction false} PlannedPrefix(ts: TableSchema, rows: Rows, ops: seq<Operation>, n: nat)
    requires n <= |ops| && AllTyped(ts, rows)
    ensures Planned(ts, rows, ops[..n]) <= Planned(ts, rows, ops)
    decreases |ops|
  {
    if n == |ops| {
      assert ops[..n] == ops;
    } else {
      var init := ops[..|ops| - 1];
      assert init[..n] == ops[..n];
      PlannedPrefix(ts, rows, init, n);
    }
  }

  lemma InsertedNext(db: Rows, ops: seq<Operation>, n: nat)
    requires n < |ops| && FreshInserts(db, ops)
    ensures Inserted(ops[..n + 1]) == Inserted(ops[..n]) + Inserted([ops[n]])
    ensures ops[n].Insert? ==> ops[n].uuid !in db && ops[n].uuid !in Inserted(ops[..n])
  {
    var (next, before) := (ops[..n + 1], ops[..n]);
    forall u
      ensures u in Inserted(next) <==> u in Inserted(before) || u in Inserted([ops[n]])
    {
      if u in Inserted(next) {
        var i :| 0 <= i < |next| && next[i].Insert? && next[i].uuid == u;
        assert i < n ==> before[i] == next[i];
        assert i == n ==> [ops[n]][0] == next[i];
      }
      if u in Inserted(before) {
        var i :| 0 <= i < |before| && before[i].Insert? && before[i].uuid == u;
        assert next[i] == before[i];
      }
      if u in Inserted([ops[n]]) {
        assert next[n] == ops[n];
      }
    }
  }

  /** What holds after the first `n` operations on a database with these rows; `planned` tells that
      queries can be answered through indexes. */
  ghost predicate Along(t: Transaction, rows: Rows, indexes: Indexes, ops: seq<Operation>, n: nat, planned: bool)
    requires n <= |ops|
    reads t, t.db, t.txn, t.updates
  {
    && t.Valid() && t.db.cache == rows && t.db.indexes == indexes && AllTyped(t.db.su.ts, rows)
    && t.txn.cache.Keys + t.deleted <= rows.Keys + Inserted(ops[..n])
    && (planned ==> t.View() == AfterAll(t.db.su.ts, rows, ops[..n]) && t.history <= Planned(t.db.su.ts, rows, ops[..n]))
  }

  /** Whether operation `n` of the list fails after those before it. */
  ghost predicate FailsAt(ts: TableSchema, rows: Rows, ops: seq<Operation>, n: nat)
    requires n < |ops| && AllTyped(ts, rows)
  {
    Fails(ts, rows, AfterAll(ts, rows, ops[..n]), ops[n])
  }

  /** The next query is trusted. */
  lemma NextTrusted(t: Transaction, rows: Rows, indexes: Indexes, ops: seq<Operation>, n: nat)
    requires n < |ops| && Along(t, rows, indexes, ops, n, true) && Plannable(t.db.su, rows, indexes, ops)
    ensures ops[n].Insert? || t.Trusted(ops[n].where)
  {
    PlannedPrefix(t.db.su.ts, rows, ops, n);
    ApartSubset(t.db.su, t.history, Planned(t.db.su.ts, rows, ops));
  }

  lemma NextPlanned(ts: TableSchema, rows: Rows, ops: seq<Operation>, n: nat, h: Versions, h': Versions, view: Rows)
    requires n < |ops| && AllTyped(ts, rows) && h <= Planned(ts, rows, ops[..n]) && h' <= h + Present(rows) + Present(view)
    requires view == AfterOne(ts, AfterAll(ts, rows, ops[..n]), ops[n])
    ensures view == AfterAll(ts, rows, ops[..n + 1]) && h' <= Planned(ts, rows, ops[..n + 1])
  {
    PlannedNext(ts, rows, ops, n);
    PlannedStart(ts, rows, ops[..n]);
  }

  method PerformNext(
    t: Transaction, ghost rows: Rows, ghost indexes: Indexes, ghost ops: seq<Operation>, op: Operation, ghost n: nat, ghost planned: bool)
    returns (e: Option<TxnError>)
    requires n < |ops| && op == ops[n] && FreshInserts(rows, ops) && Along(t, rows, indexes, ops, n, planned)
    requires planned ==> Plannable(t.db.su, rows, indexes, ops)
    modifies t, t.txn, t.updates
    ensures t.Valid()
    ensures e.None? ==> Along(t, rows, indexes, ops, n + 1, planned) && RowWise(t.db.su.ts, old(t.View()), ops[n], t.View())
    ensures planned && Proper(t.db.su.ts, ops[n]) ==> (e.Some? <==> FailsAt(t.db.su.ts, rows, ops, n))
  {
    InsertedNext(rows, ops, n);
    if planned {
      NextTrusted(t, rows, indexes, ops, n);
    }
    ghost var h := t.history;
    assert t.Fresh(ops[n]);
    e := t.Perform(op);
    if e.None? && planned {
      NextPlanned(t.db.su.ts, rows, ops, n, h, t.history, t.View());
    }
  }
}
