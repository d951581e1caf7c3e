/** One round of reference processing, and what it does to the rows accounted for and to the
    tracked references (updates/references.go). */
module GarbageCollection {
  import opened Values
  import opened Difference
  import opened Merge
  import opened References
  import opened Tracker
  import opened Collector

  // ---- one cleaned row ----

  lemma RemovedTargets(s: set<Atom>, us: set<Uuid>)
    ensures UuidsOf(s - UuidAtoms(us)) == UuidsOf(s) - us
  {
    forall u
      ensures u in UuidsOf(s) <==> UuidAtom(u) in s
      ensures u in UuidsOf(s - UuidAtoms(us)) <==> UuidAtom(u) in s && u !in us
    {
      assert UuidAtom(u) in UuidAtoms(us) <==> u in us;
    }
  }

  /** One column of a cleaned row. */
  lemma CleanColumn(rt: ReferenceTracker, f: Uuid, c: Column)
    requires rt.Valid() && rt.Live(f) && !rt.LeftShort(f, c) && c in rt.Requested()[f].model
    ensures var (x, n) := (rt.Requested()[f], rt.CleanModel(f));
            && ValidEntry(rt.schema, x) && c in rt.schema.tables[x.table] && c in n
            && HasKind(n[c], rt.schema.tables[x.table][c].kind) && NormalValue(n[c])
            && (rt.PendingTo(f, c) == {} || rt.schema.tables[x.table][c].kind.AtomKind? ==> n[c] == x.model[c])
            && (rt.PendingTo(f, c) != {} ==> n[c] != x.model[c])
            && Targets(n[c]) == Targets(x.model[c]) - rt.PendingTo(f, c)
  {
    PatchValid(rt.schema, rt.home, rt.db.rows, rt.updates);
    var x := rt.Requested()[f];
    assert HasKind(x.model[c], rt.schema.tables[x.table][c].kind) && NormalValue(x.model[c]);
    if rt.PendingTo(f, c) != {} {
      rt.PendingColumn(f, c);
      RemovedTargets(x.model[c].s, rt.PendingTo(f, c));
      assert rt.CleanModel(f)[c] == SetValue(x.model[c].s - UuidAtoms(rt.PendingTo(f, c)));
      assert Targets(rt.CleanModel(f)[c]) == Targets(x.model[c]) - rt.PendingTo(f, c);
      var to :| to in rt.PendingTo(f, c);
      assert to in Targets(x.model[c]);
    }
  }

  /** Removing pending references from a row removes exactly those references. */
  lemma CleanRefers(rt: ReferenceTracker, f: Uuid, e: Edge)
    requires rt.Valid() && rt.Live(f) && e.from == f
    requires !rt.LeftShort(f, e.spec.fromColumn)
    ensures var x := rt.Requested()[f];
            RowRefers(rt.schema, Entry(x.table, rt.CleanModel(f)), e) <==> RowRefers(rt.schema, x, e) && !rt.Pending(e)
  {
    var (x, c) := (rt.Requested()[f], e.spec.fromColumn);
    if IsLocation(rt.schema, e.spec) && e.spec.fromTable == x.table && c in x.model {
      CleanColumn(rt, f, c);
      assert e == Edge(LocationOf(rt.schema, x.table, c), e.to, f);
      assert e.to in rt.PendingTo(f, c) <==> e.to in Targets(x.model[c]) && rt.Pending(e);
    }
  }

  /** A cleaned row is a valid row. */
  lemma CleanValid(rt: ReferenceTracker, f: Uuid)
    requires rt.Valid() && rt.Live(f)
    requires forall c :: !rt.LeftShort(f, c)
    ensures ValidEntry(rt.schema, Entry(rt.Requested()[f].table, rt.CleanModel(f)))
  {
    var x := rt.Requested()[f];
    PatchValid(rt.schema, rt.home, rt.db.rows, rt.updates);
    assert ValidEntry(rt.schema, x);
    forall c | c in x.model
      ensures CleanColumnValid(rt.schema.tables[x.table], x.model, rt.CleanModel(f), c)
    {
      assert !rt.LeftShort(f, c);
      CleanColumn(rt, f, c);
    }
    ColumnsValid(rt.schema, x, rt.CleanModel(f));
  }

  predicate CleanColumnValid(ts: TableSchema, m: Model, n: Model, c: Column) {
    && c in ts && c in m && c in n && HasKind(n[c], ts[c].kind) && NormalValue(n[c])
    && (ts[c].kind.AtomKind? ==> n[c] == m[c])
  }

  lemma ColumnsValid(schema: Schema, x: Entry, n: Model)
    requires ValidEntry(schema, x) && n.Keys == x.model.Keys
    requires forall c :: c in x.model ==> CleanColumnValid(schema.tables[x.table], x.model, n, c)
    ensures ValidEntry(schema, Entry(x.table, n))
  {
    forall c | c in n
      ensures CleanColumnValid(schema.tables[x.table], x.model, n, c)
    {
    }
  }

  lemma CleanDiffers(rt: ReferenceTracker, f: Uuid, c: Column)
    requires rt.Valid() && rt.PendingTo(f, c) != {} && !rt.LeftShort(f, c)
    ensures rt.Live(f) && rt.CleanModel(f) != rt.Requested()[f].model
  {
    CleanColumn(rt, f, c);
  }

  lemma CleanHomed(rt: ReferenceTracker, f: Uuid)
    requires rt.Valid() && rt.Live(f)
    requires forall c :: !rt.LeftShort(f, c)
    ensures var x := rt.Requested()[f];
            x.table == rt.home(f) && Homed(rt.schema, rt.home, Some(x)) &&
            Homed(rt.schema, rt.home, Some(Entry(x.table, rt.CleanModel(f))))
  {
    var x := rt.Requested()[f];
    PatchValid(rt.schema, rt.home, rt.db.rows, rt.updates);
    forall e: Edge | MaybeRefers(rt.schema, Some(Entry(x.table, rt.CleanModel(f))), e)
      ensures e.spec.toTable == rt.home(e.to)
    {
      var e' := Edge(e.spec, e.to, f);
      assert !rt.LeftShort(f, e.spec.fromColumn);
      CleanRefers(rt, f, e');
      assert MaybeRefers(rt.schema, Some(x), e');
    }
  }

  // ---- consistency of the tracked references with the rows ----

  /** `acc` are the rows as far as references have been processed.  Its strong references are
      those tracked and those of the rows `w0` asked for, and only the rows of `cleaned` differ
      from what was asked for. */
  ghost predicate Consistent(
    schema: Schema, w0: World, edges: iset<Edge>, acc: World, del: set<Uuid>, cleaned: set<Uuid>)
  {
    && acc.Keys == w0.Keys - del
    && Agree(schema, edges, acc, false)
    && (forall e: Edge :: IsStrong(schema, e.spec) && e.from in acc ==> (Refers(schema, acc, e) <==> Refers(schema, w0, e)))
    && (forall e: Edge :: e in edges && IsWeak(schema, e.spec) && e.from !in del ==> Refers(schema, w0, e))
    && (forall u :: u in acc && u !in cleaned ==> acc[u] == w0[u])
    && (forall u :: u in acc ==> acc[u].table == w0[u].table)
  }

  /** The next batch of changes: deletions of collected rows and removals of weak references. */
  ghost predicate NextBatch(rt: ReferenceTracker, strong: Changes, weak: Changes)
    reads rt
  {
    && (forall u :: u in strong ==>
          u in rt.Requested() && u in rt.deleted && strong[u] == Change(rt.home(u), DeleteUpdate(rt.Requested()[u].model)))
    && (forall f :: rt.WeaklyCleaned(weak, f))
    && (forall f, c :: !rt.LeftShort(f, c))
  }

  lemma NextValid(rt: ReferenceTracker, strong: Changes, weak: Changes, u: Uuid)
    requires rt.Valid() && NextBatch(rt, strong, weak)
    ensures u in strong ==> u !in weak && ValidChange(rt.schema, rt.home, u, strong[u]) && Before(strong[u]) == Some(rt.Requested()[u])
    ensures u in weak ==>
      && rt.Live(u) && ValidChange(rt.schema, rt.home, u, weak[u])
      && Before(weak[u]) == Some(rt.Requested()[u])
      && After(weak[u]) == Some(Entry(rt.Requested()[u].table, rt.CleanModel(u)))
  {
    PatchValid(rt.schema, rt.home, rt.db.rows, rt.updates);
    assert rt.WeaklyCleaned(weak, u);
    if u in weak {
      CleanValid(rt, u);
      CleanHomed(rt, u);
      var c :| rt.PendingTo(u, c) != {};
      assert !rt.LeftShort(u, c);
      CleanDiffers(rt, u, c);
    }
  }

  /** What the next batch toggles: of the live rows, exactly the pending references. */
  lemma NextToggles(rt: ReferenceTracker, strong: Changes, weak: Changes, e: Edge)
    requires rt.Valid() && NextBatch(rt, strong, weak) && rt.WeakWithin()
    ensures e.from !in rt.deleted ==> (Toggles(rt.schema, strong + weak, e) <==> rt.Pending(e))
    ensures e.from !in strong && IsStrong(rt.schema, e.spec) ==> !Toggles(rt.schema, strong + weak, e)
  {
    NextValid(rt, strong, weak, e.from);
    if rt.Pending(e) {
      PendingIsAt(rt, e);
      assert rt.WeaklyCleaned(weak, e.from);
    }
    if e.from in weak {
      WeakToggles(rt, strong, weak, e);
    }
  }

  lemma WeakToggles(rt: ReferenceTracker, strong: Changes, weak: Changes, e: Edge)
    requires rt.Valid() && NextBatch(rt, strong, weak) && rt.WeakWithin() && e.from in weak
    ensures Toggles(rt.schema, strong + weak, e) <==> rt.Pending(e)
  {
    NextValid(rt, strong, weak, e.from);
    assert !rt.LeftShort(e.from, e.spec.fromColumn);
    CleanRefers(rt, e.from, e);
    if rt.Pending(e) {
      PendingIsAt(rt, e);
    }
    assert (strong + weak)[e.from] == weak[e.from];
  }

  lemma PendingIsAt(rt: ReferenceTracker, e: Edge)
    requires rt.Valid() && rt.WeakWithin() && rt.Pending(e)
    ensures Refers(rt.schema, rt.Requested(), e)
    ensures e.to in rt.PendingTo(e.from, e.spec.fromColumn)
  {
    var f := e.from;
    PatchValid(rt.schema, rt.home, rt.db.rows, rt.updates);
    assert Refers(rt.schema, rt.Requested(), e);
    assert e == Edge(LocationOf(rt.schema, rt.Requested()[f].table, e.spec.fromColumn), e.to, f);
  }

  /** The tracked state stays consistent through the next batch, and no weak reference of a
      live row to a missing row is left after it. */
  lemma NextConsistent(
    rt: ReferenceTracker, strong: Changes, weak: Changes, acc: World, del: set<Uuid>, cleaned: set<Uuid>)
    requires rt.Valid() && rt.WeakWithin() && NextBatch(rt, strong, weak)
    requires Consistent(rt.schema, rt.Requested(), rt.edges, acc, del, cleaned)
    requires rt.deleted.Keys == del + strong.Keys && strong.Keys !! del
    ensures var next := strong + weak;
            Consistent(rt.schema, rt.Requested(), Toggled(rt.schema, rt.edges, next), Patch(acc, next),
                       rt.deleted.Keys, cleaned + weak.Keys)
  {
    var next := strong + weak;
    var (schema, w0, acc') := (rt.schema, rt.Requested(), Patch(acc, next));
    NextAgrees(rt, strong, weak, acc, del, cleaned);
    NextRows(rt, strong, weak, acc, del, cleaned);
    forall e: Edge | IsStrong(schema, e.spec) && e.from in acc'
      ensures Refers(schema, acc', e) <==> Refers(schema, w0, e)
    {
      NextToggles(rt, strong, weak, e);
      NextValid(rt, strong, weak, e.from);
      assert e.from in acc && (Refers(schema, acc, e) <==> Refers(schema, w0, e));
    }
    forall e: Edge | e in Toggled(schema, rt.edges, next) && IsWeak(schema, e.spec) && e.from !in rt.deleted.Keys
      ensures Refers(schema, w0, e)
    {
      NextToggles(rt, strong, weak, e);
    }
  }

  lemma NextRows(
    rt: ReferenceTracker, strong: Changes, weak: Changes, acc: World, del: set<Uuid>, cleaned: set<Uuid>)
    requires rt.Valid() && NextBatch(rt, strong, weak)
    requires Consistent(rt.schema, rt.Requested(), rt.edges, acc, del, cleaned)
    requires rt.deleted.Keys == del + strong.Keys && strong.Keys !! del
    ensures var (next, w0) := (strong + weak, rt.Requested());
            var acc' := Patch(acc, next);
            && acc'.Keys == w0.Keys - rt.deleted.Keys
            && (forall u :: u in acc' ==> acc'[u].table == w0[u].table)
            && (forall u :: u in acc' && u !in cleaned + weak.Keys ==> acc'[u] == w0[u])
  {
    var (next, w0) := (strong + weak, rt.Requested());
    var acc' := Patch(acc, next);
    forall u
      ensures RowAfter(acc', w0, rt.deleted.Keys, cleaned + weak.Keys, u)
    {
      NextValid(rt, strong, weak, u);
      NextRow(w0, strong, weak, acc, del, cleaned, rt.deleted.Keys, u);
    }
    RowsAfter(acc', w0, rt.deleted.Keys, cleaned + weak.Keys);
  }

  ghost predicate RowAfter(acc: World, w0: World, del: set<Uuid>, cleaned: set<Uuid>, u: Uuid) {
    && (u in acc <==> u in w0 && u !in del)
    && (u in acc ==> acc[u].table == w0[u].table)
    && (u in acc && u !in cleaned ==> acc[u] == w0[u])
  }

  lemma RowsAfter(acc: World, w0: World, del: set<Uuid>, cleaned: set<Uuid>)
    requires forall u :: RowAfter(acc, w0, del, cleaned, u)
    ensures acc.Keys == w0.Keys - del
    ensures forall u :: u in acc ==> acc[u].table == w0[u].table
    ensures forall u :: u in acc && u !in cleaned ==> acc[u] == w0[u]
  {
    forall u
      ensures u in acc.Keys <==> u in w0.Keys - del
    {
      assert RowAfter(acc, w0, del, cleaned, u);
    }
    forall u | u in acc
      ensures acc[u].table == w0[u].table
      ensures u !in cleaned ==> acc[u] == w0[u]
    {
      assert RowAfter(acc, w0, del, cleaned, u);
    }
  }

  lemma NextRow(
    w0: World, strong: Changes, weak: Changes, acc: World, del: set<Uuid>, cleaned: set<Uuid>,
    del': set<Uuid>, u: Uuid)
    requires RowAfter(acc, w0, del, cleaned, u)
    requires del' == del + strong.Keys
    requires u in strong ==> u !in weak && After(strong[u]).None?
    requires u in weak ==> u in w0 && u !in del' && After(weak[u]).Some? && After(weak[u]).value.table == w0[u].table
    ensures RowAfter(Patch(acc, strong + weak), w0, del', cleaned + weak.Keys, u)
  {
  }

  lemma NextAgrees(
    rt: ReferenceTracker, strong: Changes, weak: Changes, acc: World, del: set<Uuid>, cleaned: set<Uuid>)
    requires rt.Valid() && NextBatch(rt, strong, weak)
    requires Consistent(rt.schema, rt.Requested(), rt.edges, acc, del, cleaned)
    requires rt.deleted.Keys == del + strong.Keys && strong.Keys !! del
    ensures var next := strong + weak;
            Agree(rt.schema, Toggled(rt.schema, rt.edges, next), Patch(acc, next), false)
  {
    var next := strong + weak;
    forall e: Edge | e.from in next && IsStrong(rt.schema, e.spec)
      ensures Refers(rt.schema, acc, e) <==> MaybeRefers(rt.schema, Before(next[e.from]), e)
    {
      NextValid(rt, strong, weak, e.from);
      assert e.from in acc;
    }
    AgreeAfterChanges(rt.schema, rt.edges, acc, false, next);
  }

  /** After the next batch no live row refers weakly to a missing row. */
  lemma NextCovers(rt: ReferenceTracker, strong: Changes, weak: Changes)
    requires rt.Valid() && rt.WeakWithin() && NextBatch(rt, strong, weak)
    ensures NoPending(rt.schema, Toggled(rt.schema, rt.edges, strong + weak), rt.Requested(), rt.deleted.Keys)
  {
    forall e: Edge | e in Toggled(rt.schema, rt.edges, strong + weak) && IsWeak(rt.schema, e.spec) && e.from !in rt.deleted
      ensures e.to in rt.Requested() && e.to !in rt.deleted
    {
      NextToggles(rt, strong, weak, e);
      if !rt.Pending(e) {
        assert e in rt.edges;
        assert Refers(rt.schema, rt.Requested(), e);
      }
    }
  }

  ghost predicate NoPending(schema: Schema, edges: iset<Edge>, w0: World, del: set<Uuid>) {
    forall e: Edge :: e in edges && IsWeak(schema, e.spec) && e.from !in del ==> e.to in w0 && e.to !in del
  }

  // ---- merging sets of changes ----

  // The merge of `ModelUpdates.UpdateSet`, for updates keyed by row instead of by table and row.

  function UpdateOf(chs: Changes, u: Uuid): ModelUpdate {
    if u in chs then chs[u].update else NO_UPDATE
  }

  /** The change of row `u` after changes `b` are merged into `a`. */
  function MergedChange(a: Changes, b: Changes, u: Uuid): Option<Change> {
    if u !in b then At(a, u)
    else
      var m := MergeUpdate(UpdateOf(a, u), b[u].update);
      if m == Ok(NO_UPDATE) || m.Err? then None else Some(Change(b[u].table, m.value))
  }

  method MergeChanges(a: Changes, b: Changes) returns (r: Result<Changes, TrackError>)
    ensures r.Err? <==> exists u :: u in b && MergeUpdate(UpdateOf(a, u), b[u].update).Err?
    ensures r.Ok? ==> forall u :: At(r.value, u) == MergedChange(a, b, u)
  {
    var merged := a;
    var todo := b.Keys;
    while todo != {}
      invariant todo <= b.Keys
      invariant forall u :: At(merged, u) == if u in todo then At(a, u) else MergedChange(a, b, u)
      invariant forall u :: u in b && u !in todo ==> MergeUpdate(UpdateOf(a, u), b[u].update).Ok?
      decreases todo
    {
      var u :| u in todo;
      assert At(merged, u) == At(a, u);
      var m := MergeUpdate(UpdateOf(merged, u), b[u].update);
      if m.Err? {
        return Err(MergeFailed);
      }
      merged := if m.value == NO_UPDATE then merged - {u} else merged[u := Change(b[u].table, m.value)];
      todo := todo - {u};
    }
    r := Ok(merged);
  }

  lemma MergeDisjoint(a: Changes, b: Changes)
    requires a.Keys !! b.Keys && forall u :: u in b ==> b[u].update.row.Some?
    ensures forall u :: u in b ==> MergeUpdate(UpdateOf(a, u), b[u].update).Ok?
    ensures forall u :: At(a + b, u) == MergedChange(a, b, u)
  {
  }

  lemma SameChanges(r: Changes, x: Changes)
    requires forall u :: At(r, u) == At(x, u)
    ensures r == x
  {
    forall u
      ensures u in r <==> u in x
      ensures u in r ==> r[u] == x[u]
    {
      assert At(r, u) == At(x, u);
    }
  }

  // ---- one round ----

  /** A batch of changes is ready to be processed: processing it leaves the tracked state
      consistent. */
  ghost predicate Ready(rt: ReferenceTracker, batch: Changes, acc: World, cleaned: set<Uuid>)
    reads rt
  {
    && rt.Valid()
    && (forall u :: u in batch ==> ValidChange(rt.schema, rt.home, u, batch[u]))
    && (forall u :: u in batch && batch[u].update.before.None? ==> u !in rt.db.rows && u in Inserts(rt.updates))
    && Deletes(rt.updates) <= rt.deleted.Keys + Deletes(batch)
    && (forall u :: u in Inserts(rt.updates) && !IsRoot(rt.schema, rt.updates[u].table) ==>
          u in rt.added || (u in batch && u in Inserts(batch) && batch[u].table == rt.updates[u].table))
    && Consistent(rt.schema, rt.Requested(), Toggled(rt.schema, rt.edges, batch), Patch(acc, batch),
                  rt.deleted.Keys + Deletes(batch), cleaned)
  }

  /** Everything is settled: strong references are to live rows, live rows outside the root
      set are strongly referenced, and no live row refers weakly to a missing row. */
  ghost predicate Settled(rt: ReferenceTracker)
    reads rt
  {
    && (forall e: Edge :: IsStrong(rt.schema, e.spec) && e in rt.edges ==> rt.Live(e.to))
    && (forall u :: rt.Live(u) && !IsRoot(rt.schema, rt.home(u)) ==> StronglyIn(rt.schema, rt.edges, u))
    && NoPending(rt.schema, rt.edges, rt.Requested(), rt.deleted.Keys)
  }

  /** All strong references to `u` among the requested rows come from rows of `del`. */
  ghost predicate OnlyFrom(schema: Schema, w0: World, u: Uuid, del: set<Uuid>) {
    forall e: Edge :: IsStrong(schema, e.spec) && Refers(schema, w0, e) && e.to == u ==> e.from in del
  }

  method ProcessBatch(rt: ReferenceTracker, batch: Changes, ghost acc: World, ghost cleaned: set<Uuid>)
    requires Ready(rt, batch, acc, cleaned)
    modifies rt
    ensures rt.Valid() && rt.Processed() && rt.WeakWithin()
    ensures rt.deleted.Keys == old(rt.deleted).Keys + Deletes(batch)
    ensures rt.edges == Toggled(rt.schema, old(rt.edges), batch)
    ensures Consistent(rt.schema, rt.Requested(), rt.edges, Patch(acc, batch), rt.deleted.Keys, cleaned)
  {
    rt.ProcessModelUpdates(batch);
    ConsistentWeakWithin(rt, Patch(acc, batch), cleaned);
  }

  lemma ConsistentWeakWithin(rt: ReferenceTracker, acc: World, cleaned: set<Uuid>)
    requires Consistent(rt.schema, rt.Requested(), rt.edges, acc, rt.deleted.Keys, cleaned)
    ensures rt.WeakWithin()
  {
    forall e: Edge | e in rt.edges && IsWeak(rt.schema, e.spec) && e.from !in rt.deleted
      ensures Refers(rt.schema, rt.Requested(), e)
    {
      assert e.from !in rt.deleted.Keys;
    }
  }

  /** Rows to which no strong reference is tracked are referred to by no remaining row. */
  lemma UnreferencedOnlyFrom(
    schema: Schema, w0: World, edges: iset<Edge>, acc: World, del: set<Uuid>, cleaned: set<Uuid>, u: Uuid)
    requires Consistent(schema, w0, edges, acc, del, cleaned) && !StronglyIn(schema, edges, u)
    ensures OnlyFrom(schema, w0, u, del)
  {
    forall e: Edge | IsStrong(schema, e.spec) && Refers(schema, w0, e) && e.to == u
      ensures e.from in del
    {
      assert e.from in acc ==> e in edges;
    }
  }

  /** What the strong and the weak part of a round find. */
  ghost predicate Found(rt: ReferenceTracker, del: set<Uuid>, strong: Changes, weak: Changes)
    reads rt
  {
    && rt.Valid() && rt.Processed() && rt.WeakWithin() && NextBatch(rt, strong, weak)
    && rt.deleted.Keys == del + strong.Keys && strong.Keys !! del
    && (forall u :: u in strong ==> !IsRoot(rt.schema, rt.home(u)) && !StronglyIn(rt.schema, rt.edges, u))
    && (forall u :: u in rt.Requested() && u !in del && !IsRoot(rt.schema, rt.home(u)) && u !in strong ==>
          StronglyIn(rt.schema, rt.edges, u))
    && (forall e: Edge :: IsStrong(rt.schema, e.spec) && e in rt.edges ==> e.to in rt.Requested() && e.to !in del)
    && !SomeViolation(rt)
  }

  /** A strong reference is to a row that is missing or among the rows `del`. */
  ghost predicate StrongMissing(rt: ReferenceTracker, del: set<Uuid>)
    reads rt
  {
    exists e: Edge :: IsStrong(rt.schema, e.spec) && e in rt.edges && !(e.to in rt.Requested() && e.to !in del)
  }

  /** The weak part of the round fails. */
  ghost predicate SomeViolation(rt: ReferenceTracker)
    reads rt
  {
    exists f, c :: rt.WeakViolation(f, c)
  }

  /** Why a round fails: a strong reference is to a missing row, or a column cannot lose its weak
      references. */
  ghost predicate CollectFailed(rt: ReferenceTracker, del: set<Uuid>, strong: Changes)
    reads rt
  {
    rt.Valid() && rt.WeakWithin() && (StrongMissing(rt, del) || (FoundStrong(rt, del, strong) && SomeViolation(rt)))
  }

  /** The strong and the weak part of a round. */
  method Collect(rt: ReferenceTracker) returns (r: Result<(Changes, Changes), TrackError>, ghost collected: Changes)
    requires rt.Valid() && rt.Processed() && rt.WeakWithin()
    modifies rt
    ensures rt.edges == old(rt.edges)
    ensures r.Ok? ==> Found(rt, old(rt.deleted).Keys, r.value.0, r.value.1)
    ensures r.Err? ==> CollectFailed(rt, old(rt.deleted).Keys, collected)
  {
    collected := map[];
    var strong := CollectStrong(rt);
    if strong.Err? {
      return Err(strong.error), collected;
    }
    collected := strong.value;
    var weak := CollectWeak(rt, old(rt.deleted).Keys, collected);
    if weak.Err? {
      return Err(weak.error), collected;
    }
    r := Ok((strong.value, weak.value));
  }

  method CollectWeak(rt: ReferenceTracker, ghost del: set<Uuid>, ghost strong: Changes) returns (r: Result<Changes, TrackError>)
    requires rt.Valid() && rt.Processed() && rt.WeakWithin() && FoundStrong(rt, del, strong)
    modifies rt
    ensures rt.edges == old(rt.edges)
    ensures r.Ok? ==> Found(rt, del, strong, r.value)
    ensures r.Err? ==> CollectFailed(rt, del, strong)
  {
    r := rt.ProcessWeakReferences();
    assert FoundStrong(rt, del, strong);
    if r.Ok? {
      assert !SomeViolation(rt);
      NothingShort(rt);
    }
  }

  lemma NothingShort(rt: ReferenceTracker)
    requires !SomeViolation(rt)
    ensures forall f, c :: !rt.LeftShort(f, c)
  {
    forall f, c
      ensures !rt.LeftShort(f, c)
    {
      assert !rt.WeakViolation(f, c);
    }
  }

  method CollectStrong(rt: ReferenceTracker) returns (r: Result<Changes, TrackError>)
    requires rt.Valid() && rt.Processed() && rt.WeakWithin()
    modifies rt
    ensures rt.Valid() && rt.Processed() && rt.WeakWithin() && rt.edges == old(rt.edges)
    ensures r.Ok? ==> FoundStrong(rt, old(rt.deleted).Keys, r.value)
    ensures r.Err? ==> StrongMissing(rt, old(rt.deleted).Keys)
  {
    ghost var del := rt.deleted.Keys;
    assert WeakSince(rt.schema, rt.Requested(), rt.edges, del);
    r := rt.ProcessStrongReferences();
    KeepsWeakWithin(rt, del);
    if r.Ok? {
      forall u
        ensures rt.Collected(r.value, u, u in rt.Requested() && u !in del)
      {
        assert rt.Collected(r.value, u, old(rt.Live(u)));
      }
      forall e: Edge | IsStrong(rt.schema, e.spec) && e in rt.edges
        ensures e.to in rt.Requested() && e.to !in del
      {
        assert old(rt.Live(e.to));
      }
      StrongFound(rt, del, r.value);
    } else {
      ghost var e: Edge :| IsStrong(rt.schema, e.spec) && e in old(rt.edges) && !old(rt.Live(e.to));
      assert e in rt.edges;
    }
  }

  ghost predicate WeakSince(schema: Schema, w0: World, edges: iset<Edge>, del: set<Uuid>) {
    forall e: Edge :: e in edges && IsWeak(schema, e.spec) && e.from !in del ==> Refers(schema, w0, e)
  }

  lemma KeepsWeakWithin(rt: ReferenceTracker, del: set<Uuid>)
    requires WeakSince(rt.schema, rt.Requested(), rt.edges, del) && del <= rt.deleted.Keys
    ensures rt.WeakWithin()
  {
    forall e: Edge | e in rt.edges && IsWeak(rt.schema, e.spec) && e.from !in rt.deleted
      ensures Refers(rt.schema, rt.Requested(), e)
    {
      assert e.from !in del;
    }
  }

  lemma StrongFound(rt: ReferenceTracker, del: set<Uuid>, strong: Changes)
    requires rt.deleted.Keys == del + strong.Keys
    requires forall u :: rt.Collected(strong, u, u in rt.Requested() && u !in del)
    requires forall e: Edge :: IsStrong(rt.schema, e.spec) && e in rt.edges ==> e.to in rt.Requested() && e.to !in del
    ensures FoundStrong(rt, del, strong)
  {
    forall u
      ensures u in strong ==>
        && u in rt.Requested() && u !in del && u in rt.deleted
        && strong[u] == Change(rt.home(u), DeleteUpdate(rt.Requested()[u].model))
        && !IsRoot(rt.schema, rt.home(u)) && !StronglyIn(rt.schema, rt.edges, u)
      ensures u in rt.Requested() && u !in del && !IsRoot(rt.schema, rt.home(u)) && u !in strong ==>
        StronglyIn(rt.schema, rt.edges, u)
    {
      assert rt.Collected(strong, u, u in rt.Requested() && u !in del);
      assert u in strong ==> u in rt.deleted.Keys;
    }
  }

  ghost predicate FoundStrong(rt: ReferenceTracker, del: set<Uuid>, strong: Changes)
    reads rt
  {
    && rt.deleted.Keys == del + strong.Keys && strong.Keys !! del
    && (forall u :: u in strong ==>
          u in rt.Requested() && u in rt.deleted && strong[u] == Change(rt.home(u), DeleteUpdate(rt.Requested()[u].model)))
    && (forall u :: u in strong ==> !IsRoot(rt.schema, rt.home(u)) && !StronglyIn(rt.schema, rt.edges, u))
    && (forall u :: u in rt.Requested() && u !in del && !IsRoot(rt.schema, rt.home(u)) && u !in strong ==>
          StronglyIn(rt.schema, rt.edges, u))
    && (forall e: Edge :: IsStrong(rt.schema, e.spec) && e in rt.edges ==> e.to in rt.Requested() && e.to !in del)
  }

  /** What a round does to the set of deleted rows: it deletes live rows outside the root set
      whose strong references all come from rows that were already deleted. */
  ghost predicate Advances(rt: ReferenceTracker, del: set<Uuid>, next: Changes)
    reads rt
  {
    && rt.deleted.Keys == del + Deletes(next) && Deletes(next) !! del && Deletes(next) <= rt.Requested().Keys
    && forall u :: u in Deletes(next) ==> !IsRoot(rt.schema, rt.home(u)) && OnlyFrom(rt.schema, rt.Requested(), u, del)
  }

  /** The change of a row in the next batch. */
  ghost predicate NextChange(rt: ReferenceTracker, strong: Changes, weak: Changes, u: Uuid)
  {
    && (u in strong ==> u !in weak && ValidChange(rt.schema, rt.home, u, strong[u]) && strong[u].update.after.None?)
    && (u in strong ==> strong[u].update.before.Some?)
    && (u in weak ==> ValidChange(rt.schema, rt.home, u, weak[u]) && weak[u].update.before.Some? && weak[u].update.after.Some?)
    && (u in weak ==> weak[u].update.row.Some?)
  }

  lemma NextDeletes(rt: ReferenceTracker, strong: Changes, weak: Changes)
    requires rt.Valid() && NextBatch(rt, strong, weak)
    ensures Deletes(strong + weak) == strong.Keys && strong.Keys !! weak.Keys
    ensures forall u :: u in strong + weak ==>
      ValidChange(rt.schema, rt.home, u, (strong + weak)[u]) && (strong + weak)[u].update.before.Some?
    ensures forall u :: u in weak ==> weak[u].update.row.Some?
  {
    forall u
      ensures NextChange(rt, strong, weak, u)
    {
      NextValid(rt, strong, weak, u);
    }
    NextChanges(rt, strong, weak);
  }

  lemma NextChanges(rt: ReferenceTracker, strong: Changes, weak: Changes)
    requires forall u :: NextChange(rt, strong, weak, u)
    ensures Deletes(strong + weak) == strong.Keys && strong.Keys !! weak.Keys
    ensures forall u :: u in strong + weak ==>
      ValidChange(rt.schema, rt.home, u, (strong + weak)[u]) && (strong + weak)[u].update.before.Some?
    ensures forall u :: u in weak ==> weak[u].update.row.Some?
  {
    forall u
      ensures u in Deletes(strong + weak) <==> u in strong
      ensures u in strong ==> u !in weak
      ensures u in strong + weak ==>
        ValidChange(rt.schema, rt.home, u, (strong + weak)[u]) && (strong + weak)[u].update.before.Some?
      ensures u in weak ==> weak[u].update.row.Some?
    {
      assert NextChange(rt, strong, weak, u);
    }
  }

  /** After a round the next batch is ready. */
  lemma RoundReady(
    rt: ReferenceTracker, strong: Changes, weak: Changes, acc: World, del: set<Uuid>, cleaned: set<Uuid>)
    requires Found(rt, del, strong, weak)
    requires Consistent(rt.schema, rt.Requested(), rt.edges, acc, del, cleaned)
    ensures Ready(rt, strong + weak, acc, cleaned + weak.Keys)
  {
    NextDeletes(rt, strong, weak);
    NextConsistent(rt, strong, weak, acc, del, cleaned);
    assert rt.deleted.Keys + Deletes(strong + weak) == rt.deleted.Keys;
  }

  lemma RoundAdvances(
    rt: ReferenceTracker, strong: Changes, weak: Changes, acc: World, del: set<Uuid>, cleaned: set<Uuid>)
    requires Found(rt, del, strong, weak)
    requires Consistent(rt.schema, rt.Requested(), rt.edges, acc, del, cleaned)
    ensures Advances(rt, del, strong + weak)
  {
    NextDeletes(rt, strong, weak);
    forall u | u in strong
      ensures OnlyFrom(rt.schema, rt.Requested(), u, del)
    {
      UnreferencedOnlyFrom(rt.schema, rt.Requested(), rt.edges, acc, del, cleaned, u);
    }
  }

  /** There are weak references to remove exactly when some are pending. */
  lemma WeakIffPending(rt: ReferenceTracker, weak: Changes)
    requires rt.Valid() && rt.WeakWithin() && forall f :: rt.WeaklyCleaned(weak, f)
    ensures weak == map[] <==> NoPending(rt.schema, rt.edges, rt.Requested(), rt.deleted.Keys)
  {
    if f :| f in weak {
      assert rt.WeaklyCleaned(weak, f);
      var c :| rt.PendingTo(f, c) != {};
      var to :| to in rt.PendingTo(f, c);
      var e := Edge(LocationOf(rt.schema, rt.Requested()[f].table, c), to, f);
      assert rt.Pending(e);
      assert e.from !in rt.deleted.Keys;
    }
    if !NoPending(rt.schema, rt.edges, rt.Requested(), rt.deleted.Keys) {
      var e: Edge :| e in rt.edges && IsWeak(rt.schema, e.spec) && e.from !in rt.deleted.Keys &&
        !(e.to in rt.Requested() && e.to !in rt.deleted.Keys);
      assert Refers(rt.schema, rt.Requested(), e);
      assert rt.Pending(e);
      PendingIsAt(rt, e);
      assert rt.WeaklyCleaned(weak, e.from);
    }
  }

  /** When nothing is collected and nothing is pending, nothing is left to do. */
  lemma RoundEnds(rt: ReferenceTracker, strong: Changes, weak: Changes, del: set<Uuid>)
    requires Found(rt, del, strong, weak) && strong == map[]
    requires weak == map[] || NoPending(rt.schema, rt.edges, rt.Requested(), del)
    ensures weak == map[] && Settled(rt)
  {
    assert rt.deleted.Keys == del;
    WeakIffPending(rt, weak);
  }

  ghost predicate HasWeak(schema: Schema) {
    exists s :: IsWeak(schema, s)
  }

  /** What a round leads to: `del` were the rows deleted when the batch was processed and `acc`
      the rows then accounted for. */
  ghost predicate RoundDone(
    rt: ReferenceTracker, next: Changes, acc: World, del: set<Uuid>, cleaned: set<Uuid>, cleaned': set<Uuid>,
    covered: bool)
    reads rt
  {
    && Ready(rt, next, acc, cleaned') && rt.WeakWithin()
    && Consistent(rt.schema, rt.Requested(), rt.edges, acc, del, cleaned)
    && RoundGoesOn(rt, next, acc, del, cleaned, cleaned', covered)
  }

  /** What a round found, and the rows that have lost weak references with it. */
  ghost predicate RoundFound(rt: ReferenceTracker, del: set<Uuid>, next: Changes, cleaned: set<Uuid>, cleaned': set<Uuid>)
    reads rt
  {
    exists strong, weak :: Found(rt, del, strong, weak) && next == strong + weak && cleaned' == cleaned + weak.Keys
  }

  /** What a round adds and what it leaves to do. */
  ghost predicate RoundGoesOn(
    rt: ReferenceTracker, next: Changes, acc: World, del: set<Uuid>, cleaned: set<Uuid>, cleaned': set<Uuid>,
    covered: bool)
    reads rt
  {
    && Advances(rt, del, next)
    && Covered(rt, next)
    && (Deletes(next) == {} && covered ==> next == map[])
    && (next == map[] ==> Settled(rt))
    && RoundFound(rt, del, next, cleaned, cleaned')
  }

  predicate IsWeakColumn(schema: Schema, table: Table, c: Column) {
    table in schema.tables && c in schema.tables[table] && schema.tables[table][c].refTable != "" && !schema.tables[table][c].strong
  }

  lemma RoundIsDone(
    rt: ReferenceTracker, strong: Changes, weak: Changes, acc: World, del: set<Uuid>, cleaned: set<Uuid>)
    requires Found(rt, del, strong, weak)
    requires Consistent(rt.schema, rt.Requested(), rt.edges, acc, del, cleaned)
    ensures RoundDone(rt, strong + weak, acc, del, cleaned, cleaned + weak.Keys,
                      NoPending(rt.schema, rt.edges, rt.Requested(), del))
  {
    NextDeletes(rt, strong, weak);
    RoundReady(rt, strong, weak, acc, del, cleaned);
    RoundMoves(rt, strong, weak, acc, del, cleaned);
  }

  lemma RoundMoves(
    rt: ReferenceTracker, strong: Changes, weak: Changes, acc: World, del: set<Uuid>, cleaned: set<Uuid>)
    requires Found(rt, del, strong, weak)
    requires Consistent(rt.schema, rt.Requested(), rt.edges, acc, del, cleaned)
    ensures RoundGoesOn(rt, strong + weak, acc, del, cleaned, cleaned + weak.Keys,
                        NoPending(rt.schema, rt.edges, rt.Requested(), del))
  {
    RoundAdvances(rt, strong, weak, acc, del, cleaned);
    RoundLeaves(rt, strong, weak, del);
  }

  /** What a round leaves to do. */
  lemma RoundLeaves(rt: ReferenceTracker, strong: Changes, weak: Changes, del: set<Uuid>)
    requires Found(rt, del, strong, weak)
    ensures Covered(rt, strong + weak)
    ensures Deletes(strong + weak) == {} && NoPending(rt.schema, rt.edges, rt.Requested(), del) ==> strong + weak == map[]
    ensures strong + weak == map[] ==> Settled(rt)
  {
    NextDeletes(rt, strong, weak);
    NextCovers(rt, strong, weak);
    assert rt.deleted.Keys + Deletes(strong + weak) == rt.deleted.Keys;
    if strong == map[] && (weak == map[] || NoPending(rt.schema, rt.edges, rt.Requested(), del)) {
      RoundEnds(rt, strong, weak, del);
    }
  }

  /** Why a round fails, with the rows accounted for. */
  ghost predicate RoundFailed(rt: ReferenceTracker, acc: World, del: set<Uuid>, cleaned: set<Uuid>)
    reads rt
  {
    && Consistent(rt.schema, rt.Requested(), rt.edges, acc, del, cleaned)
    && exists strong :: CollectFailed(rt, del, strong)
  }

  /** One round of the loop.  The source does not compute `cleaned'`, the rows that have lost
      weak references so far; it is only there to tell when such a row is touched again. */
  method Round(rt: ReferenceTracker, batch: Changes, ghost acc: World, cleaned: set<Uuid>)
    returns (r: Result<Changes, TrackError>, cleaned': set<Uuid>)
    requires Ready(rt, batch, acc, cleaned)
    modifies rt
    ensures r.Ok? ==>
      RoundDone(rt, r.value, Patch(acc, batch), old(rt.deleted).Keys + Deletes(batch), cleaned, cleaned',
                old(Covered(rt, batch)))
    ensures r.Err? ==> RoundFailed(rt, Patch(acc, batch), old(rt.deleted).Keys + Deletes(batch), cleaned)
    ensures rt.edges == Toggled(rt.schema, old(rt.edges), batch)
  {
    cleaned' := cleaned;
    ProcessBatch(rt, batch, acc, cleaned);
    ghost var del := rt.deleted.Keys;
    ghost var collected;
    var found;
    found, collected := Collect(rt);
    if found.Err? {
      return Err(found.error), cleaned';
    }
    var (strong, weak) := found.value;
    NextDeletes(rt, strong, weak);
    r := MergeRound(strong, weak);
    RoundIsDone(rt, strong, weak, Patch(acc, batch), del, cleaned);
    cleaned' := cleaned + weak.Keys;
  }

  method MergeRound(strong: Changes, weak: Changes) returns (r: Result<Changes, TrackError>)
    requires strong.Keys !! weak.Keys && forall u :: u in weak ==> weak[u].update.row.Some?
    ensures r == Ok(strong + weak)
  {
    MergeDisjoint(strong, weak);
    r := MergeChanges(strong, weak);
    SameChanges(r.value, strong + weak);
  }

  /** After the batch no live row refers weakly to a missing row. */
  ghost predicate Covered(rt: ReferenceTracker, batch: Changes)
    reads rt
  {
    NoPending(rt.schema, Toggled(rt.schema, rt.edges, batch), rt.Requested(), rt.deleted.Keys + Deletes(batch))
  }
}
