/** The rounds of reference processing, level by level: what each round finds, what it leaves, and
    how its updates merge (updates/references.go, updates/merge.go). */
module Rounds {
  import opened Values
  import opened Difference
  import opened Merge
  import opened References
  import opened Tracker
  import opened Collector
  import opened GarbageCollection
  import opened Levels

  /** The state between rounds: the rows collected so far are those of `k` rounds, and the rows
      that are left have lost exactly their weak references to rows missing by then. */
  ghost predicate AtLevel(schema: Schema, w0: World, edges: iset<Edge>, del: set<Uuid>, k: nat) {
    && del * w0.Keys == Gone(schema, w0, k)
    && forall e: Edge :: IsWeak(schema, e.spec) && Refers(schema, w0, e) && e.from !in del ==>
         (e in edges <==> k == 0 || !Missing(schema, w0, k, e.to))
  }

  /** What a round knows when it has collected `strong`. */
  ghost predicate RoundCollected(
    rt: ReferenceTracker, strong: Changes, acc: World, del: set<Uuid>, cleaned: set<Uuid>, k: nat)
    reads rt
  {
    && rt.Valid() && rt.WeakWithin() && FoundStrong(rt, del, strong)
    && Consistent(rt.schema, rt.Requested(), rt.edges, acc, del, cleaned)
    && AtLevel(rt.schema, rt.Requested(), rt.edges, del, k)
  }

  lemma OnlyFromGone(schema: Schema, w0: World, u: Uuid, del: set<Uuid>, gone: set<Uuid>)
    requires del * w0.Keys == gone
    ensures OnlyFrom(schema, w0, u, del) <==> OnlyFrom(schema, w0, u, gone)
  {
    forall e: Edge | IsStrong(schema, e.spec) && Refers(schema, w0, e) && e.to == u
      ensures e.from in del <==> e.from in gone
    {
      assert e.from in del * w0.Keys <==> e.from in del;
    }
  }

  /** A row that is still strongly referenced. */
  lemma ReferencedFrom(schema: Schema, w0: World, edges: iset<Edge>, acc: World, del: set<Uuid>, cleaned: set<Uuid>, u: Uuid)
    requires Consistent(schema, w0, edges, acc, del, cleaned) && StronglyIn(schema, edges, u)
    ensures !OnlyFrom(schema, w0, u, del)
  {
    var e: Edge :| IsStrong(schema, e.spec) && e in edges && e.to == u;
    assert Refers(schema, acc, e) && e.from in acc;
    assert Refers(schema, w0, e);
  }

  /** A round collects exactly the rows of its level. */
  lemma StrongIsGone(
    rt: ReferenceTracker, strong: Changes, acc: World, del: set<Uuid>, cleaned: set<Uuid>, k: nat)
    requires RoundCollected(rt, strong, acc, del, cleaned, k)
    ensures strong.Keys == Gone(rt.schema, rt.Requested(), k + 1) - Gone(rt.schema, rt.Requested(), k)
    ensures rt.deleted.Keys * rt.Requested().Keys == Gone(rt.schema, rt.Requested(), k + 1)
  {
    var (gone, gone') := (Gone(rt.schema, rt.Requested(), k), Gone(rt.schema, rt.Requested(), k + 1));
    GoneGrows(rt.schema, rt.Requested(), k, k + 1);
    StrongKeys(rt, strong, acc, del, cleaned, k, gone, gone');
    AllGone(rt.deleted.Keys, del, strong.Keys, rt.Requested().Keys, gone, gone');
  }

  lemma StrongKeys(
    rt: ReferenceTracker, strong: Changes, acc: World, del: set<Uuid>, cleaned: set<Uuid>, k: nat, gone: set<Uuid>, gone': set<Uuid>)
    requires RoundCollected(rt, strong, acc, del, cleaned, k)
    requires gone == Gone(rt.schema, rt.Requested(), k) && gone' == Gone(rt.schema, rt.Requested(), k + 1)
    ensures strong.Keys == gone' - gone
  {
    forall u
      ensures u in strong.Keys <==> u in gone' - gone
    {
      StrongIsGoneAt(rt, strong, acc, del, cleaned, k, u);
    }
  }

  lemma AllGone(deleted: set<Uuid>, del: set<Uuid>, strong: set<Uuid>, all: set<Uuid>, gone: set<Uuid>, gone': set<Uuid>)
    requires deleted == del + strong && del * all == gone && strong == gone' - gone && gone <= gone' <= all
    ensures deleted * all == gone'
  {
    forall u
      ensures u in deleted * all <==> u in gone'
    {
      assert u in del * all <==> u in gone;
    }
  }

  lemma StrongIsGoneAt(
    rt: ReferenceTracker, strong: Changes, acc: World, del: set<Uuid>, cleaned: set<Uuid>, k: nat, u: Uuid)
    requires RoundCollected(rt, strong, acc, del, cleaned, k)
    ensures u in strong.Keys <==> u in Gone(rt.schema, rt.Requested(), k + 1) && u !in Gone(rt.schema, rt.Requested(), k)
  {
    var (schema, w0) := (rt.schema, rt.Requested());
    PatchValid(schema, rt.home, rt.db.rows, rt.updates);
    assert u in w0 ==> w0[u].table == rt.home(u);
    assert u in del * w0.Keys <==> u in Gone(schema, w0, k);
    OnlyFromGone(schema, w0, u, del, Gone(schema, w0, k));
    if u in strong {
      UnreferencedOnlyFrom(schema, w0, rt.edges, acc, del, cleaned, u);
      assert u !in del;
    } else if u in w0 && u !in del && !IsRoot(schema, rt.home(u)) {
      ReferencedFrom(schema, w0, rt.edges, acc, del, cleaned, u);
    }
  }

  lemma LiveIsThere(
    rt: ReferenceTracker, strong: Changes, acc: World, del: set<Uuid>, cleaned: set<Uuid>, k: nat, u: Uuid)
    requires RoundCollected(rt, strong, acc, del, cleaned, k)
    ensures rt.Live(u) <==> !Missing(rt.schema, rt.Requested(), k + 1, u)
  {
    StrongIsGone(rt, strong, acc, del, cleaned, k);
    assert u in rt.deleted.Keys * rt.Requested().Keys <==> u in Gone(rt.schema, rt.Requested(), k + 1);
  }

  /** The weak references a round removes are exactly those due in it. */
  lemma PendingIsDue(
    rt: ReferenceTracker, strong: Changes, acc: World, del: set<Uuid>, cleaned: set<Uuid>, k: nat, e: Edge)
    requires RoundCollected(rt, strong, acc, del, cleaned, k)
    ensures rt.Pending(e) <==> DueAt(rt.schema, rt.Requested(), k + 1, e)
  {
    var (schema, w0) := (rt.schema, rt.Requested());
    LiveIsThere(rt, strong, acc, del, cleaned, k, e.from);
    LiveIsThere(rt, strong, acc, del, cleaned, k, e.to);
    if IsWeak(schema, e.spec) && rt.Live(e.from) {
      assert e.from !in del;
      assert Refers(schema, w0, e) ==> (e in rt.edges <==> k == 0 || !Missing(schema, w0, k, e.to));
      assert e in rt.edges ==> Refers(schema, w0, e);
    }
  }

  lemma PendingToIsDue(
    rt: ReferenceTracker, strong: Changes, acc: World, del: set<Uuid>, cleaned: set<Uuid>, k: nat, f: Uuid, c: Column)
    requires RoundCollected(rt, strong, acc, del, cleaned, k)
    ensures rt.PendingTo(f, c) == DueTo(rt.schema, rt.Requested(), k + 1, f, c)
  {
    var (schema, w0) := (rt.schema, rt.Requested());
    forall to
      ensures to in rt.PendingTo(f, c) <==> to in DueTo(schema, w0, k + 1, f, c)
    {
      if f in w0 && w0[f].table in schema.tables && c in schema.tables[w0[f].table] {
        PendingIsDue(rt, strong, acc, del, cleaned, k, Edge(LocationOf(schema, w0[f].table, c), to, f));
      }
    }
  }

  /** The weak part of a round fails exactly when its level is violated. */
  lemma ViolationIsAtLevel(
    rt: ReferenceTracker, strong: Changes, acc: World, del: set<Uuid>, cleaned: set<Uuid>, k: nat)
    requires RoundCollected(rt, strong, acc, del, cleaned, k)
    ensures SomeViolation(rt) <==> ViolatesIn(rt.schema, rt.Requested(), k + 1)
  {
    if SomeViolation(rt) {
      var f, c :| rt.WeakViolation(f, c);
      ViolationAt(rt, strong, acc, del, cleaned, k, f, c);
    }
    if ViolatesIn(rt.schema, rt.Requested(), k + 1) {
      var f: Uuid, c: Column :| ViolatedAt(rt.schema, rt.Requested(), k + 1, f, c);
      ViolationAt(rt, strong, acc, del, cleaned, k, f, c);
    }
  }

  lemma ViolationAt(
    rt: ReferenceTracker, strong: Changes, acc: World, del: set<Uuid>, cleaned: set<Uuid>, k: nat, f: Uuid, c: Column)
    requires RoundCollected(rt, strong, acc, del, cleaned, k)
    ensures rt.WeakViolation(f, c) <==> ViolatedAt(rt.schema, rt.Requested(), k + 1, f, c)
  {
    PendingToIsDue(rt, strong, acc, del, cleaned, k, f, c);
  }

  /** The rows a round touches are exactly those of its level. */
  lemma NextIsTouched(
    rt: ReferenceTracker, strong: Changes, weak: Changes, acc: World, del: set<Uuid>, cleaned: set<Uuid>, k: nat, f: Uuid)
    requires RoundCollected(rt, strong, acc, del, cleaned, k) && NextBatch(rt, strong, weak)
    ensures f in weak <==> LosesAt(rt.schema, rt.Requested(), k + 1, f)
    ensures f in strong + weak <==> TouchedAt(rt.schema, rt.Requested(), k + 1, f)
  {
    var (schema, w0) := (rt.schema, rt.Requested());
    StrongIsGone(rt, strong, acc, del, cleaned, k);
    assert rt.WeaklyCleaned(weak, f);
    if f in weak {
      var c :| rt.PendingTo(f, c) != {};
      var to :| to in rt.PendingTo(f, c);
      PendingIsDue(rt, strong, acc, del, cleaned, k, Edge(LocationOf(schema, w0[f].table, c), to, f));
    }
    if LosesAt(schema, w0, k + 1, f) {
      var e: Edge :| e.from == f && DueAt(schema, w0, k + 1, e);
      PendingIsDue(rt, strong, acc, del, cleaned, k, e);
      PendingIsAt(rt, e);
    }
  }

  /** After the batch of a round the state is that of the next level. */
  lemma LevelUp(
    rt: ReferenceTracker, strong: Changes, weak: Changes, acc: World, del: set<Uuid>, cleaned: set<Uuid>, k: nat)
    requires RoundCollected(rt, strong, acc, del, cleaned, k) && NextBatch(rt, strong, weak)
    ensures AtLevel(rt.schema, rt.Requested(), Toggled(rt.schema, rt.edges, strong + weak), rt.deleted.Keys, k + 1)
  {
    var (schema, w0, next) := (rt.schema, rt.Requested(), strong + weak);
    StrongIsGone(rt, strong, acc, del, cleaned, k);
    forall e: Edge | IsWeak(schema, e.spec) && Refers(schema, w0, e) && e.from !in rt.deleted.Keys
      ensures e in Toggled(schema, rt.edges, next) <==> !Missing(schema, w0, k + 1, e.to)
    {
      PendingIsDue(rt, strong, acc, del, cleaned, k, e);
      NextToggles(rt, strong, weak, e);
      GoneGrows(schema, w0, k, k + 1);
      assert e.from in rt.deleted.Keys * w0.Keys <==> e.from in Gone(schema, w0, k + 1);
      assert e.from !in del;
    }
  }

  // ---- the updates of the rounds ----

  /** The reference from column `c` of row `f`. */
  function EdgeAt(schema: Schema, w0: World, f: Uuid, c: Column, to: Uuid): Edge
    requires f in w0 && IsWeakColumn(schema, w0[f].table, c)
  {
    Edge(LocationOf(schema, w0[f].table, c), to, f)
  }

  /** Column `c` of a delta takes weak references out of a set, none of which is in `kept`. */
  ghost predicate TakesAt(schema: Schema, w0: World, kept: iset<Edge>, f: Uuid, d: Row, c: Column) {
    && f in w0 && c in d && c in w0[f].model && IsWeakColumn(schema, w0[f].table, c)
    && w0[f].model[c].SetValue? && d[c].SetValue? && d[c].s != {} && d[c].s <= w0[f].model[c].s
    && forall a :: a in d[c].s ==> a.UuidAtom? && EdgeAt(schema, w0, f, c, a.u) !in kept
  }

  /** The delta does nothing but take weak references that are not in `kept`. */
  ghost predicate Takes(schema: Schema, w0: World, kept: iset<Edge>, f: Uuid, d: Row) {
    d != map[] && forall c :: c in d ==> TakesAt(schema, w0, kept, f, d, c)
  }

  /** All weak references of row `f` that are not in `kept` are taken. */
  ghost predicate TakesAll(schema: Schema, w0: World, kept: iset<Edge>, f: Uuid, d: Row) {
    forall e: Edge :: e.from == f && IsWeak(schema, e.spec) && Refers(schema, w0, e) && e !in kept ==> TakesEdge(d, e)
  }

  predicate TakesEdge(d: Row, e: Edge) {
    e.spec.fromColumn in d && d[e.spec.fromColumn].SetValue? && UuidAtom(e.to) in d[e.spec.fromColumn].s
  }

  /** What the merged updates take from a row. */
  function TakenBy(refs: Changes, u: Uuid): Row {
    if u in refs && refs[u].update.row.Some? && refs[u].update.row.value.delta.Some?
    then refs[u].update.row.value.delta.value
    else map[]
  }

  /** The merged update of a row after some rounds: its deletion, or a modification that takes weak
      references although its new row is the one of the last round. */
  ghost predicate RefShape(
    schema: Schema, home: Uuid -> Table, w0: World, edges: iset<Edge>, del: set<Uuid>, acc: World, u: Uuid, ch: Change)
  {
    && u in w0 && ch.table == home(u)
    && (u in del ==> ch.update == DeleteUpdate(w0[u].model))
    && (u !in del ==>
          && u in acc && ch.update.row.Some? && ch.update.row.value.delta.Some?
          && ch.update == ModifyUpdate(w0[u].model, ch.update.row.value.delta.value, acc[u].model)
          && Takes(schema, w0, edges, u, ch.update.row.value.delta.value))
  }

  /** The merged updates of the rounds, and the rows without one. */
  ghost predicate RefsAt(
    schema: Schema, home: Uuid -> Table, w0: World, edges: iset<Edge>, del: set<Uuid>, acc: World, refs: Changes)
  {
    && (forall u :: u in refs ==> RefShape(schema, home, w0, edges, del, acc, u, refs[u]))
    && (forall u :: u !in refs ==> At(acc, u) == At(w0, u))
    && (forall u :: u in w0 && u !in del ==> TakesAll(schema, w0, edges, u, TakenBy(refs, u)))
  }

  lemma Intersected<T>(s: set<T>, d: set<T>, p: set<T>)
    requires SymDiff(s, d) == s - p
    ensures d == s * p
  {
    forall x
      ensures x in d <==> x in s && x in p
    {
      assert x in SymDiff(s, d) <==> x in s - p;
    }
  }

  /** One column of the delta of a cleaned row. */
  lemma WeakDeltaAt(rt: ReferenceTracker, f: Uuid, d: Row, c: Column)
    requires rt.Valid() && rt.Live(f) && c in d
    requires Tight(rt.Requested()[f].model, d) && ApplyDelta(rt.Requested()[f].model, d) == rt.CleanModel(f)
    ensures var (schema, w0) := (rt.schema, rt.Requested());
      && c in w0[f].model && IsWeakColumn(schema, w0[f].table, c) && w0[f].model[c].SetValue? && d[c].SetValue?
      && d[c].s != {} && d[c].s <= w0[f].model[c].s
      && (forall a :: a in d[c].s ==> a.UuidAtom? && rt.Pending(EdgeAt(schema, w0, f, c, a.u)))
      && (forall to :: to in rt.PendingTo(f, c) ==> UuidAtom(to) in d[c].s)
  {
    var (schema, x, p) := (rt.schema, rt.Requested()[f], rt.PendingTo(f, c));
    DeltaAt(x.model, d, rt.CleanModel(f), c);
    assert p != {} && x.model[c].SetValue?;
    var to :| to in p;
    assert rt.Pending(Edge(LocationOf(schema, x.table, c), to, f));
    Intersected(x.model[c].s, d[c].s, UuidAtoms(p));
    SymDiffLaws(x.model[c].s, d[c].s, {});
  }

  lemma MergedTakesAt(schema: Schema, w0: World, kept: iset<Edge>, f: Uuid, d: Row, d': Row, o: Row, c: Column)
    requires c in d ==> TakesAt(schema, w0, kept, f, d, c)
    requires c in d' ==> TakesAt(schema, w0, kept, f, d', c)
    ensures c in MergedModify(o, d, d') ==> TakesAt(schema, w0, kept, f, MergedModify(o, d, d'), c)
    ensures c in d' && (c in d ==> d[c].s != d'[c].s) ==> c in MergedModify(o, d, d')
  {
    var m := MergedModify(o, d, d');
    assert c in m ==> MergedAt(o, d, d', c) == Some(m[c]);
    if c in d && c in d' {
      assert Compose(OriginalValue(o, c, d'[c]), d[c], d'[c]) == (SetValue(SymDiff(d[c].s, d'[c].s)), SymDiff(d[c].s, d'[c].s) != {});
      SymDiffLaws(d[c].s, d[c].s, d'[c].s);
    }
  }

  /** Deltas that take different weak references merge into one that takes them all. */
  lemma MergedTakes(schema: Schema, w0: World, kept: iset<Edge>, f: Uuid, d: Row, d': Row, o: Row)
    requires Takes(schema, w0, kept, f, d) && Takes(schema, w0, kept, f, d')
    requires exists c :: c in d' && (c in d ==> d[c].s != d'[c].s)
    ensures Takes(schema, w0, kept, f, MergedModify(o, d, d'))
  {
    var c :| c in d' && (c in d ==> d[c].s != d'[c].s);
    forall c | c in d.Keys + d'.Keys
      ensures c in MergedModify(o, d, d') ==> TakesAt(schema, w0, kept, f, MergedModify(o, d, d'), c)
    {
      MergedTakesAt(schema, w0, kept, f, d, d', o, c);
    }
    MergedTakesAt(schema, w0, kept, f, d, d', o, c);
  }

  /** The setting of a finished round. */
  ghost predicate RoundFinished(
    rt: ReferenceTracker, strong: Changes, weak: Changes, acc: World, del: set<Uuid>, cleaned: set<Uuid>, k: nat)
    reads rt
  {
    && Found(rt, del, strong, weak)
    && Consistent(rt.schema, rt.Requested(), rt.edges, acc, del, cleaned)
    && AtLevel(rt.schema, rt.Requested(), rt.edges, del, k)
  }

  lemma FinishedCollecting(
    rt: ReferenceTracker, strong: Changes, weak: Changes, acc: World, del: set<Uuid>, cleaned: set<Uuid>, k: nat)
    requires RoundFinished(rt, strong, weak, acc, del, cleaned, k)
    ensures RoundCollected(rt, strong, acc, del, cleaned, k) && NextBatch(rt, strong, weak)
  {
  }

  /** A weak reference that was gone already, of a row that is not collected, stays gone. */
  lemma StaysGone(rt: ReferenceTracker, strong: Changes, weak: Changes, e: Edge)
    requires rt.Valid() && rt.WeakWithin() && NextBatch(rt, strong, weak) && e.from !in rt.deleted
    ensures rt.Pending(e) || e !in rt.edges ==> e !in Toggled(rt.schema, rt.edges, strong + weak)
    ensures e.from !in strong + weak && e in rt.edges ==> e in Toggled(rt.schema, rt.edges, strong + weak)
  {
    NextToggles(rt, strong, weak, e);
  }

  /** The delta of a cleaned row. */
  lemma WeakDelta(rt: ReferenceTracker, strong: Changes, weak: Changes, f: Uuid)
    requires rt.Valid() && rt.WeakWithin() && NextBatch(rt, strong, weak) && f in weak
    ensures rt.Live(f) && weak[f].update.row.Some? && weak[f].update.row.value.delta.Some?
    ensures var d := weak[f].update.row.value.delta.value;
      && weak[f].update == ModifyUpdate(rt.Requested()[f].model, d, rt.CleanModel(f))
      && Takes(rt.schema, rt.Requested(), Toggled(rt.schema, rt.edges, strong + weak), f, d)
      && forall c, a :: c in d && a in d[c].s ==> a.UuidAtom? && rt.Pending(EdgeAt(rt.schema, rt.Requested(), f, c, a.u))
  {
    var (schema, w0) := (rt.schema, rt.Requested());
    assert rt.WeaklyCleaned(weak, f);
    var c0 :| rt.PendingTo(f, c0) != {};
    assert !rt.LeftShort(f, c0);
    CleanDiffers(rt, f, c0);
    var d := weak[f].update.row.value.delta.value;
    NonEmptyDelta(w0[f].model, d);
    forall c | c in d
      ensures TakesAt(schema, w0, Toggled(schema, rt.edges, strong + weak), f, d, c)
      ensures forall a :: a in d[c].s ==> a.UuidAtom? && rt.Pending(EdgeAt(schema, w0, f, c, a.u))
    {
      WeakDeltaAt(rt, f, d, c);
      forall a | a in d[c].s
        ensures EdgeAt(schema, w0, f, c, a.u) !in Toggled(schema, rt.edges, strong + weak)
      {
        StaysGone(rt, strong, weak, EdgeAt(schema, w0, f, c, a.u));
      }
    }
  }

  /** The delta of a cleaned row takes all its weak references to missing rows. */
  lemma WeakDeltaAll(rt: ReferenceTracker, strong: Changes, weak: Changes, e: Edge)
    requires rt.Valid() && rt.WeakWithin() && NextBatch(rt, strong, weak) && e.from in weak && rt.Pending(e)
    requires weak[e.from].update.row.Some? && weak[e.from].update.row.value.delta.Some?
    ensures TakesEdge(weak[e.from].update.row.value.delta.value, e)
  {
    var (f, c) := (e.from, e.spec.fromColumn);
    assert rt.WeaklyCleaned(weak, f);
    PendingIsAt(rt, e);
    assert !rt.LeftShort(f, c);
    CleanDiffers(rt, f, c);
    CleanColumn(rt, f, c);
    var d := weak[f].update.row.value.delta.value;
    DeltaAt(rt.Requested()[f].model, d, rt.CleanModel(f), c);
    WeakDeltaAt(rt, f, d, c);
  }

  lemma DeleteMerges(o: Model, d: Row, m: Model)
    ensures MergeUpdate(NO_UPDATE, DeleteUpdate(o)) == Ok(DeleteUpdate(o))
    ensures MergeUpdate(ModifyUpdate(o, d, m), DeleteUpdate(o)) == Ok(DeleteUpdate(o))
  {
  }

  lemma ModifyMerges(o: Model, d: Row, m: Model, d': Row, n: Model)
    ensures MergeUpdate(NO_UPDATE, ModifyUpdate(o, d', n)) == Ok(ModifyUpdate(o, d', n))
    ensures MergedModify(RowOf(o), d, d') != map[] ==>
      MergeUpdate(ModifyUpdate(o, d, m), ModifyUpdate(o, d', n)) == Ok(ModifyUpdate(o, MergedModify(RowOf(o), d, d'), n))
  {
  }

  /** The merged update of a row that a round touches. */
  lemma TouchedMerges(
    rt: ReferenceTracker, strong: Changes, weak: Changes, acc: World, del: set<Uuid>, cleaned: set<Uuid>, k: nat,
    refs: Changes, u: Uuid)
    requires RoundFinished(rt, strong, weak, acc, del, cleaned, k) && u in strong + weak
    requires RefsAt(rt.schema, rt.home, rt.Requested(), rt.edges, del, acc, refs)
    ensures var next := strong + weak;
      var m := MergeUpdate(UpdateOf(refs, u), next[u].update);
      && m.Ok? && m.value != NO_UPDATE
      && RefShape(rt.schema, rt.home, rt.Requested(), Toggled(rt.schema, rt.edges, next), rt.deleted.Keys, Patch(acc, next), u,
                  Change(next[u].table, m.value))
  {
    NextValid(rt, strong, weak, u);
    if u in strong {
      CollectedMerges(rt, strong, weak, acc, del, refs, u);
    } else {
      CleanedMerges(rt, strong, weak, acc, del, refs, u);
    }
  }

  lemma CollectedMerges(rt: ReferenceTracker, strong: Changes, weak: Changes, acc: World, del: set<Uuid>, refs: Changes, u: Uuid)
    requires Found(rt, del, strong, weak) && u in strong && u !in weak
    requires u in refs ==> RefShape(rt.schema, rt.home, rt.Requested(), rt.edges, del, acc, u, refs[u])
    ensures MergeUpdate(UpdateOf(refs, u), strong[u].update) == Ok(DeleteUpdate(rt.Requested()[u].model))
    ensures strong[u].table == rt.home(u) && u in rt.Requested() && u in rt.deleted.Keys && (strong + weak)[u] == strong[u]
  {
    assert u !in del;
    var o := rt.Requested()[u].model;
    DeleteMerges(o, TakenBy(refs, u), if u in acc then acc[u].model else o);
  }

  lemma CleanedMerges(rt: ReferenceTracker, strong: Changes, weak: Changes, acc: World, del: set<Uuid>, refs: Changes, u: Uuid)
    requires Found(rt, del, strong, weak) && u in weak && u !in strong && rt.Live(u)
    requires ValidChange(rt.schema, rt.home, u, weak[u]) && After(weak[u]) == Some(Entry(rt.Requested()[u].table, rt.CleanModel(u)))
    requires RefsAt(rt.schema, rt.home, rt.Requested(), rt.edges, del, acc, refs)
    ensures var next := strong + weak;
      var m := MergeUpdate(UpdateOf(refs, u), next[u].update);
      && m.Ok? && m.value != NO_UPDATE
      && RefShape(rt.schema, rt.home, rt.Requested(), Toggled(rt.schema, rt.edges, next), rt.deleted.Keys, Patch(acc, next), u,
                  Change(next[u].table, m.value))
  {
    var (schema, w0, next) := (rt.schema, rt.Requested(), strong + weak);
    var E' := Toggled(schema, rt.edges, next);
    WeakDelta(rt, strong, weak, u);
    var d' := weak[u].update.row.value.delta.value;
    assert Patch(acc, next)[u].model == rt.CleanModel(u);
    if u in refs {
      assert RefShape(schema, rt.home, w0, rt.edges, del, acc, u, refs[u]);
      var d := refs[u].update.row.value.delta.value;
      TakenTwice(rt, strong, weak, u, d, d');
      ModifyMerges(w0[u].model, d, acc[u].model, d', rt.CleanModel(u));
    } else {
      ModifyMerges(w0[u].model, map[], w0[u].model, d', rt.CleanModel(u));
    }
  }

  lemma TakenTwice(rt: ReferenceTracker, strong: Changes, weak: Changes, f: Uuid, d: Row, d': Row)
    requires rt.Valid() && rt.WeakWithin() && NextBatch(rt, strong, weak) && rt.Live(f)
    requires Takes(rt.schema, rt.Requested(), rt.edges, f, d)
    requires Takes(rt.schema, rt.Requested(), Toggled(rt.schema, rt.edges, strong + weak), f, d')
    requires forall c, a :: c in d' && a in d'[c].s ==> a.UuidAtom? && rt.Pending(EdgeAt(rt.schema, rt.Requested(), f, c, a.u))
    ensures Takes(rt.schema, rt.Requested(), Toggled(rt.schema, rt.edges, strong + weak), f,
                  MergedModify(RowOf(rt.Requested()[f].model), d, d'))
  {
    StillTakes(rt, strong, weak, f, d);
    DifferentTaken(rt, f, d, d');
    MergedTakes(rt.schema, rt.Requested(), Toggled(rt.schema, rt.edges, strong + weak), f, d, d', RowOf(rt.Requested()[f].model));
  }

  /** References taken earlier stay taken. */
  lemma StillTakes(rt: ReferenceTracker, strong: Changes, weak: Changes, f: Uuid, d: Row)
    requires rt.Valid() && rt.WeakWithin() && NextBatch(rt, strong, weak) && f !in rt.deleted
    requires Takes(rt.schema, rt.Requested(), rt.edges, f, d)
    ensures Takes(rt.schema, rt.Requested(), Toggled(rt.schema, rt.edges, strong + weak), f, d)
  {
    forall c | c in d
      ensures TakesAt(rt.schema, rt.Requested(), Toggled(rt.schema, rt.edges, strong + weak), f, d, c)
    {
      assert TakesAt(rt.schema, rt.Requested(), rt.edges, f, d, c);
      forall a | a in d[c].s
        ensures EdgeAt(rt.schema, rt.Requested(), f, c, a.u) !in Toggled(rt.schema, rt.edges, strong + weak)
      {
        StaysGone(rt, strong, weak, EdgeAt(rt.schema, rt.Requested(), f, c, a.u));
      }
    }
  }

  /** What is taken now was not taken before. */
  lemma DifferentTaken(rt: ReferenceTracker, f: Uuid, d: Row, d': Row)
    requires Takes(rt.schema, rt.Requested(), rt.edges, f, d) && d' != map[]
    requires forall c :: c in d' ==> f in rt.Requested() && IsWeakColumn(rt.schema, rt.Requested()[f].table, c) && d'[c].SetValue? && d'[c].s != {}
    requires forall c, a :: c in d' && a in d'[c].s ==> a.UuidAtom? && rt.Pending(EdgeAt(rt.schema, rt.Requested(), f, c, a.u))
    ensures exists c :: c in d' && (c in d ==> d[c].s != d'[c].s)
  {
    var c :| c in d';
    var a :| a in d'[c].s;
    assert EdgeAt(rt.schema, rt.Requested(), f, c, a.u) in rt.edges;
    assert c in d ==> TakesAt(rt.schema, rt.Requested(), rt.edges, f, d, c);
    assert c in d ==> a !in d[c].s;
  }

  lemma MergedEdge(o: Row, d: Row, d': Row, e: Edge)
    requires TakesEdge(d, e) != TakesEdge(d', e)
    requires e.spec.fromColumn in d ==> d[e.spec.fromColumn].SetValue?
    requires e.spec.fromColumn in d' ==> d'[e.spec.fromColumn].SetValue?
    ensures TakesEdge(MergedModify(o, d, d'), e)
  {
    var (m, c) := (MergedModify(o, d, d'), e.spec.fromColumn);
    assert MergedAt(o, d, d', c).Some? ==> c in m && m[c] == MergedAt(o, d, d', c).value;
    if c in d && c in d' {
      assert UuidAtom(e.to) in SymDiff(d[c].s, d'[c].s);
      assert Compose(OriginalValue(o, c, d'[c]), d[c], d'[c]) == (SetValue(SymDiff(d[c].s, d'[c].s)), SymDiff(d[c].s, d'[c].s) != {});
    }
  }

  /** A weak reference is taken from a row either earlier or now. */
  lemma TakenOnce(rt: ReferenceTracker, strong: Changes, weak: Changes, d: Row, e: Edge)
    requires rt.Valid() && rt.WeakWithin() && NextBatch(rt, strong, weak) && e.from in weak
    requires IsWeak(rt.schema, e.spec) && Refers(rt.schema, rt.Requested(), e) && e !in Toggled(rt.schema, rt.edges, strong + weak)
    requires d == map[] || Takes(rt.schema, rt.Requested(), rt.edges, e.from, d)
    requires TakesAll(rt.schema, rt.Requested(), rt.edges, e.from, d)
    requires weak[e.from].update.row.Some? && weak[e.from].update.row.value.delta.Some?
    ensures TakesEdge(d, e) != TakesEdge(weak[e.from].update.row.value.delta.value, e)
    ensures e.spec.fromColumn in d ==> d[e.spec.fromColumn].SetValue?
    ensures var d' := weak[e.from].update.row.value.delta.value; e.spec.fromColumn in d' ==> d'[e.spec.fromColumn].SetValue?
  {
    var (f, c, w0) := (e.from, e.spec.fromColumn, rt.Requested());
    var d' := weak[f].update.row.value.delta.value;
    WeakDelta(rt, strong, weak, f);
    WeakToggles(rt, strong, weak, e);
    assert c in d ==> TakesAt(rt.schema, w0, rt.edges, f, d, c);
    assert c in d' ==> TakesAt(rt.schema, w0, Toggled(rt.schema, rt.edges, strong + weak), f, d', c);
    assert TakesEdge(d, e) ==> EdgeAt(rt.schema, w0, f, c, e.to) == e;
    assert TakesEdge(d', e) ==> EdgeAt(rt.schema, w0, f, c, UuidAtom(e.to).u) == e;
    if rt.Pending(e) {
      WeakDeltaAll(rt, strong, weak, e);
    }
  }

  /** After a round everything that went has been taken. */
  lemma TakenAfter(
    rt: ReferenceTracker, strong: Changes, weak: Changes, acc: World, del: set<Uuid>, refs: Changes, after: Changes, u: Uuid)
    requires Found(rt, del, strong, weak) && u in rt.Requested() && u !in rt.deleted.Keys
    requires RefsAt(rt.schema, rt.home, rt.Requested(), rt.edges, del, acc, refs)
    requires At(after, u) == MergedChange(refs, strong + weak, u)
    ensures TakesAll(rt.schema, rt.Requested(), Toggled(rt.schema, rt.edges, strong + weak), u, TakenBy(after, u))
  {
    var (schema, w0, E', d) := (rt.schema, rt.Requested(), Toggled(rt.schema, rt.edges, strong + weak), TakenBy(refs, u));
    NextValid(rt, strong, weak, u);
    assert u !in strong && u !in del;
    assert TakesAll(schema, w0, rt.edges, u, d);
    assert u in refs ==> RefShape(schema, rt.home, w0, rt.edges, del, acc, u, refs[u]);
    forall e: Edge | e.from == u && IsWeak(schema, e.spec) && Refers(schema, w0, e) && e !in E'
      ensures TakesEdge(TakenBy(after, u), e)
    {
      if u in weak {
        WeakDelta(rt, strong, weak, u);
        TakenOnce(rt, strong, weak, d, e);
        CleanedTakes(rt, strong, weak, acc, del, refs, after, u);
        if u in refs {
          MergedEdge(RowOf(w0[u].model), d, weak[u].update.row.value.delta.value, e);
        }
      } else {
        StaysGone(rt, strong, weak, e);
      }
    }
  }

  /** What the merged update of a cleaned row takes. */
  lemma CleanedTakes(
    rt: ReferenceTracker, strong: Changes, weak: Changes, acc: World, del: set<Uuid>, refs: Changes, after: Changes, u: Uuid)
    requires Found(rt, del, strong, weak) && u in weak && u !in strong && rt.Live(u)
    requires weak[u].update.row.Some? && weak[u].update.row.value.delta.Some?
    requires RefsAt(rt.schema, rt.home, rt.Requested(), rt.edges, del, acc, refs)
    requires At(after, u) == MergedChange(refs, strong + weak, u)
    ensures TakenBy(after, u) ==
      if u in refs then MergedModify(RowOf(rt.Requested()[u].model), TakenBy(refs, u), weak[u].update.row.value.delta.value)
      else weak[u].update.row.value.delta.value
  {
    var (w0, d') := (rt.Requested(), weak[u].update.row.value.delta.value);
    WeakDelta(rt, strong, weak, u);
    if u in refs {
      assert RefShape(rt.schema, rt.home, w0, rt.edges, del, acc, u, refs[u]);
      TakenTwice(rt, strong, weak, u, TakenBy(refs, u), d');
    }
    MergedTaken(refs, strong + weak, after, u, w0[u].model, if u in acc then acc[u].model else map[], d', rt.CleanModel(u));
  }

  lemma MergedTaken(refs: Changes, next: Changes, after: Changes, u: Uuid, o: Model, m: Model, d: Row, n: Model)
    requires u in next && next[u].update == ModifyUpdate(o, d, n) && At(after, u) == MergedChange(refs, next, u)
    requires u in refs ==> refs[u].update == ModifyUpdate(o, TakenBy(refs, u), m) && MergedModify(RowOf(o), TakenBy(refs, u), d) != map[]
    ensures TakenBy(after, u) == if u in refs then MergedModify(RowOf(o), TakenBy(refs, u), d) else d
  {
    ModifyMerges(o, TakenBy(refs, u), m, d, n);
  }

  lemma UntouchedShape(
    rt: ReferenceTracker, strong: Changes, weak: Changes, acc: World, del: set<Uuid>, refs: Changes, u: Uuid)
    requires Found(rt, del, strong, weak) && u !in strong + weak && u in refs
    requires RefShape(rt.schema, rt.home, rt.Requested(), rt.edges, del, acc, u, refs[u])
    ensures RefShape(rt.schema, rt.home, rt.Requested(), Toggled(rt.schema, rt.edges, strong + weak), rt.deleted.Keys,
                     Patch(acc, strong + weak), u, refs[u])
  {
    assert u in rt.deleted.Keys <==> u in del;
    if u !in del {
      StillTakes(rt, strong, weak, u, refs[u].update.row.value.delta.value);
    }
  }

  /** The updates of a round can be merged into those of earlier rounds. */
  lemma RefsNext(
    rt: ReferenceTracker, strong: Changes, weak: Changes, acc: World, del: set<Uuid>, cleaned: set<Uuid>, k: nat,
    refs: Changes, after: Changes)
    requires RoundFinished(rt, strong, weak, acc, del, cleaned, k)
    requires RefsAt(rt.schema, rt.home, rt.Requested(), rt.edges, del, acc, refs)
    requires forall u :: At(after, u) == MergedChange(refs, strong + weak, u)
    ensures RefsAt(rt.schema, rt.home, rt.Requested(), Toggled(rt.schema, rt.edges, strong + weak), rt.deleted.Keys,
                   Patch(acc, strong + weak), after)
  {
    forall u
      ensures RefNext(rt, Toggled(rt.schema, rt.edges, strong + weak), Patch(acc, strong + weak), after, u)
    {
      assert At(after, u) == MergedChange(refs, strong + weak, u);
      RefsNextAt(rt, strong, weak, acc, del, cleaned, k, refs, after, u);
    }
    RefsOf(rt, Toggled(rt.schema, rt.edges, strong + weak), Patch(acc, strong + weak), after);
  }

  /** The merged update of one row, and what it takes. */
  ghost predicate RefNext(rt: ReferenceTracker, edges: iset<Edge>, acc: World, refs: Changes, u: Uuid)
    reads rt
  {
    && (u in refs ==> RefShape(rt.schema, rt.home, rt.Requested(), edges, rt.deleted.Keys, acc, u, refs[u]))
    && (u !in refs ==> At(acc, u) == At(rt.Requested(), u))
    && (u in rt.Requested() && u !in rt.deleted.Keys ==> TakesAll(rt.schema, rt.Requested(), edges, u, TakenBy(refs, u)))
  }

  lemma RefsOf(rt: ReferenceTracker, edges: iset<Edge>, acc: World, refs: Changes)
    requires forall u :: RefNext(rt, edges, acc, refs, u)
    ensures RefsAt(rt.schema, rt.home, rt.Requested(), edges, rt.deleted.Keys, acc, refs)
  {
    forall u
      ensures u in refs ==> RefShape(rt.schema, rt.home, rt.Requested(), edges, rt.deleted.Keys, acc, u, refs[u])
      ensures u !in refs ==> At(acc, u) == At(rt.Requested(), u)
      ensures u in rt.Requested() && u !in rt.deleted.Keys ==> TakesAll(rt.schema, rt.Requested(), edges, u, TakenBy(refs, u))
    {
      assert RefNext(rt, edges, acc, refs, u);
    }
  }

  lemma RefsNextAt(
    rt: ReferenceTracker, strong: Changes, weak: Changes, acc: World, del: set<Uuid>, cleaned: set<Uuid>, k: nat,
    refs: Changes, after: Changes, u: Uuid)
    requires RoundFinished(rt, strong, weak, acc, del, cleaned, k)
    requires RefsAt(rt.schema, rt.home, rt.Requested(), rt.edges, del, acc, refs)
    requires At(after, u) == MergedChange(refs, strong + weak, u)
    ensures RefNext(rt, Toggled(rt.schema, rt.edges, strong + weak), Patch(acc, strong + weak), after, u)
  {
    if u in rt.Requested() && u !in rt.deleted.Keys {
      TakenAfter(rt, strong, weak, acc, del, refs, after, u);
    }
    if u in strong + weak {
      TouchedMerges(rt, strong, weak, acc, del, cleaned, k, refs, u);
    } else if u in refs {
      UntouchedShape(rt, strong, weak, acc, del, refs, u);
    }
  }

  lemma RoundMerges(
    rt: ReferenceTracker, strong: Changes, weak: Changes, acc: World, del: set<Uuid>, cleaned: set<Uuid>, k: nat,
    refs: Changes)
    requires RoundFinished(rt, strong, weak, acc, del, cleaned, k)
    requires RefsAt(rt.schema, rt.home, rt.Requested(), rt.edges, del, acc, refs)
    ensures forall u :: u in strong + weak ==> MergeUpdate(UpdateOf(refs, u), (strong + weak)[u].update).Ok?
  {
    forall u | u in strong + weak
      ensures MergeUpdate(UpdateOf(refs, u), (strong + weak)[u].update).Ok?
    {
      TouchedMerges(rt, strong, weak, acc, del, cleaned, k, refs, u);
    }
  }

  // ---- rows and references that disagree ----

  /** A weak reference that is tracked although its row is deleted, or that a row has although it is
      not tracked. */
  ghost predicate BrokenAt(schema: Schema, w0: World, edges: iset<Edge>, del: set<Uuid>, acc: World, e: Edge) {
    && IsWeak(schema, e.spec) && Refers(schema, w0, e)
    && (e.from in del ==> e in edges)
    && (e.from !in del ==> e !in edges && Refers(schema, acc, e))
  }

  ghost predicate BrokenRow(schema: Schema, w0: World, edges: iset<Edge>, del: set<Uuid>, acc: World, f: Uuid) {
    exists e: Edge :: e.from == f && BrokenAt(schema, w0, edges, del, acc, e)
  }

  /** Rows and references disagree at every row that lost a weak reference and was touched again. */
  ghost predicate Broken(schema: Schema, w0: World, edges: iset<Edge>, del: set<Uuid>, acc: World, k: nat) {
    forall f :: f in Cascaders(schema, w0, k) ==> BrokenRow(schema, w0, edges, del, acc, f)
  }

  /** The tracked references from row `f` are those of the row, and its merged update is the change
      from the requested row. */
  ghost predicate WholeRow(schema: Schema, w0: World, edges: iset<Edge>, acc: World, refs: Changes, f: Uuid) {
    && (forall e: Edge :: e.from == f ==> (e in edges <==> Refers(schema, acc, e)))
    && Summarizes(UpdateOf(refs, f), ModelIn(w0, f), ModelIn(acc, f))
  }

  /** Rows and references agree at every other row. */
  ghost predicate WholeRows(schema: Schema, w0: World, edges: iset<Edge>, acc: World, refs: Changes, k: nat) {
    forall f :: f !in Cascaders(schema, w0, k) ==> WholeRow(schema, w0, edges, acc, refs, f)
  }

  function ModelIn(w: World, u: Uuid): Option<Model> {
    if u in w then Some(w[u].model) else None
  }

  /** A row that lost a weak reference and is touched again: deleting it puts the reference back
      among those tracked, cleaning it again puts it back into the row. */
  lemma TouchedTwiceBreaks(rt: ReferenceTracker, strong: Changes, weak: Changes, acc: World, del: set<Uuid>, e: Edge)
    requires Found(rt, del, strong, weak) && e.from in strong + weak
    requires IsWeak(rt.schema, e.spec) && Refers(rt.schema, rt.Requested(), e) && e !in rt.edges
    ensures BrokenAt(rt.schema, rt.Requested(), Toggled(rt.schema, rt.edges, strong + weak), rt.deleted.Keys, Patch(acc, strong + weak), e)
  {
    if e.from in weak {
      CleanedAgainBreaks(rt, strong, weak, acc, del, e);
    } else {
      DeletedBreaks(rt, strong, weak, acc, del, e);
    }
  }

  lemma DeletedBreaks(rt: ReferenceTracker, strong: Changes, weak: Changes, acc: World, del: set<Uuid>, e: Edge)
    requires Found(rt, del, strong, weak) && e.from in strong && e.from !in weak
    requires Refers(rt.schema, rt.Requested(), e) && e !in rt.edges
    ensures e.from in rt.deleted.Keys && e in Toggled(rt.schema, rt.edges, strong + weak)
  {
    NextValid(rt, strong, weak, e.from);
    assert (strong + weak)[e.from] == strong[e.from];
    assert MaybeRefers(rt.schema, Before(strong[e.from]), e) && !MaybeRefers(rt.schema, After(strong[e.from]), e);
  }

  lemma CleanedAgainBreaks(rt: ReferenceTracker, strong: Changes, weak: Changes, acc: World, del: set<Uuid>, e: Edge)
    requires Found(rt, del, strong, weak) && e.from in weak
    requires Refers(rt.schema, rt.Requested(), e) && e !in rt.edges
    ensures e.from !in rt.deleted.Keys && e !in Toggled(rt.schema, rt.edges, strong + weak)
    ensures Refers(rt.schema, Patch(acc, strong + weak), e)
  {
    NextValid(rt, strong, weak, e.from);
    WeakToggles(rt, strong, weak, e);
    assert !rt.LeftShort(e.from, e.spec.fromColumn);
    CleanRefers(rt, e.from, e);
    assert After((strong + weak)[e.from]) == Some(Entry(rt.Requested()[e.from].table, rt.CleanModel(e.from)));
  }

  lemma BreakStays(rt: ReferenceTracker, strong: Changes, weak: Changes, acc: World, del: set<Uuid>, e: Edge)
    requires Found(rt, del, strong, weak)
    requires BrokenAt(rt.schema, rt.Requested(), rt.edges, del, acc, e)
    ensures BrokenAt(rt.schema, rt.Requested(), Toggled(rt.schema, rt.edges, strong + weak), rt.deleted.Keys, Patch(acc, strong + weak), e)
  {
    NextValid(rt, strong, weak, e.from);
    if e.from in strong + weak {
      TouchedTwiceBreaks(rt, strong, weak, acc, del, e);
    } else {
      assert e.from in rt.deleted.Keys <==> e.from in del;
      UntouchedBreak(rt.schema, rt.Requested(), rt.edges, del, rt.deleted.Keys, acc, strong + weak, e);
    }
  }

  lemma UntouchedBreak(
    schema: Schema, w0: World, edges: iset<Edge>, del: set<Uuid>, del': set<Uuid>, acc: World, next: Changes, e: Edge)
    requires BrokenAt(schema, w0, edges, del, acc, e) && e.from !in next && (e.from in del' <==> e.from in del)
    ensures BrokenAt(schema, w0, Toggled(schema, edges, next), del', Patch(acc, next), e)
  {
  }

  /** A row that is touched for the first time. */
  lemma TouchedFirst(
    rt: ReferenceTracker, strong: Changes, weak: Changes, acc: World, refs: Changes, after: Changes, f: Uuid)
    requires rt.Valid() && rt.WeakWithin() && NextBatch(rt, strong, weak) && f in strong + weak
    requires At(acc, f) == At(rt.Requested(), f) && WholeRow(rt.schema, rt.Requested(), rt.edges, acc, refs, f)
    requires At(after, f) == MergedChange(refs, strong + weak, f)
    ensures WholeRow(rt.schema, rt.Requested(), Toggled(rt.schema, rt.edges, strong + weak), Patch(acc, strong + weak), after, f)
  {
    NextValid(rt, strong, weak, f);
    FirstEdges(rt.schema, rt.Requested(), rt.edges, acc, refs, strong + weak, f);
    FirstUpdate(rt.Requested(), acc, refs, strong + weak, after, f);
  }

  lemma FirstEdges(schema: Schema, w0: World, edges: iset<Edge>, acc: World, refs: Changes, next: Changes, f: Uuid)
    requires f in next && At(acc, f) == At(w0, f) == Before(next[f]) && WholeRow(schema, w0, edges, acc, refs, f)
    ensures forall e: Edge :: e.from == f ==> (e in Toggled(schema, edges, next) <==> Refers(schema, Patch(acc, next), e))
  {
    forall e: Edge | e.from == f
      ensures e in Toggled(schema, edges, next) <==> Refers(schema, Patch(acc, next), e)
    {
      assert Refers(schema, acc, e) <==> MaybeRefers(schema, Before(next[f]), e);
    }
  }

  lemma FirstUpdate(w0: World, acc: World, refs: Changes, next: Changes, after: Changes, f: Uuid)
    requires f in next && At(acc, f) == At(w0, f) == Before(next[f]) && Summarizes(UpdateOf(refs, f), ModelIn(w0, f), ModelIn(acc, f))
    requires next[f].update != NO_UPDATE && Summarizes(next[f].update, next[f].update.before, next[f].update.after)
    requires At(after, f) == MergedChange(refs, next, f)
    ensures Summarizes(UpdateOf(after, f), ModelIn(w0, f), ModelIn(Patch(acc, next), f))
  {
    assert UpdateOf(refs, f) == NO_UPDATE;
    assert MergeUpdate(NO_UPDATE, next[f].update) == Ok(next[f].update);
    assert ModelIn(w0, f) == next[f].update.before && ModelIn(Patch(acc, next), f) == next[f].update.after;
  }

  lemma UntouchedWhole(
    rt: ReferenceTracker, strong: Changes, weak: Changes, acc: World, refs: Changes, after: Changes, f: Uuid)
    requires f !in strong + weak && WholeRow(rt.schema, rt.Requested(), rt.edges, acc, refs, f)
    requires At(after, f) == MergedChange(refs, strong + weak, f)
    ensures WholeRow(rt.schema, rt.Requested(), Toggled(rt.schema, rt.edges, strong + weak), Patch(acc, strong + weak), after, f)
  {
    forall e: Edge | e.from == f
      ensures e in Toggled(rt.schema, rt.edges, strong + weak) <==> Refers(rt.schema, Patch(acc, strong + weak), e)
    {
      assert e in rt.edges <==> Refers(rt.schema, acc, e);
    }
  }

  // ---- from level to level ----

  /** Everything that is known after `k` rounds. */
  ghost predicate Levelled(
    schema: Schema, home: Uuid -> Table, w0: World, edges: iset<Edge>, del: set<Uuid>, acc: World, cleaned: set<Uuid>,
    cascaded: set<Uuid>, refs: Changes, k: nat)
  {
    && AtLevel(schema, w0, edges, del, k) && HistoryKnown(schema, w0, cleaned, cascaded, k)
    && RefsAt(schema, home, w0, edges, del, acc, refs)
    && Broken(schema, w0, edges, del, acc, k) && WholeRows(schema, w0, edges, acc, refs, k)
  }

  /** Which rows have lost weak references in `k` rounds, which of them were touched again, and that
      nothing was violated. */
  ghost predicate HistoryKnown(schema: Schema, w0: World, cleaned: set<Uuid>, cascaded: set<Uuid>, k: nat) {
    && cleaned == Losers(schema, w0, k)
    && cascaded == Cascaders(schema, w0, k)
    && !ViolatesBy(schema, w0, k) && (k > 0 ==> StrongIntegrity(schema, w0))
  }

  lemma KnownNext(
    rt: ReferenceTracker, strong: Changes, weak: Changes, acc: World, del: set<Uuid>, cleaned: set<Uuid>, cascaded: set<Uuid>, k: nat)
    requires RoundFinished(rt, strong, weak, acc, del, cleaned, k) && HistoryKnown(rt.schema, rt.Requested(), cleaned, cascaded, k)
    ensures HistoryKnown(rt.schema, rt.Requested(), cleaned + weak.Keys, cascaded + cleaned * (strong + weak).Keys, k + 1)
  {
    CleanedNext(rt, strong, weak, acc, del, cleaned, k);
    AllTouched(rt, strong, weak, acc, del, cleaned, k);
    OneRoundMore(rt.schema, rt.Requested(), k);
    FinishedCollecting(rt, strong, weak, acc, del, cleaned, k);
    ViolationIsAtLevel(rt, strong, acc, del, cleaned, k);
    if k == 0 {
      StrongHolds(rt, strong, weak, acc, del, cleaned);
    }
  }

  lemma CleanedNext(
    rt: ReferenceTracker, strong: Changes, weak: Changes, acc: World, del: set<Uuid>, cleaned: set<Uuid>, k: nat)
    requires RoundFinished(rt, strong, weak, acc, del, cleaned, k)
    requires cleaned == Losers(rt.schema, rt.Requested(), k)
    ensures cleaned + weak.Keys == Losers(rt.schema, rt.Requested(), k + 1)
  {
    forall f
      ensures f in cleaned + weak.Keys <==> f in Losers(rt.schema, rt.Requested(), k + 1)
    {
      CleanedNextAt(rt, strong, weak, acc, del, cleaned, k, f);
    }
  }

  lemma AllTouched(
    rt: ReferenceTracker, strong: Changes, weak: Changes, acc: World, del: set<Uuid>, cleaned: set<Uuid>, k: nat)
    requires RoundFinished(rt, strong, weak, acc, del, cleaned, k)
    ensures (strong + weak).Keys == Touched(rt.schema, rt.Requested(), k + 1)
  {
    forall f
      ensures f in (strong + weak).Keys <==> f in Touched(rt.schema, rt.Requested(), k + 1)
    {
      FinishedCollecting(rt, strong, weak, acc, del, cleaned, k);
      NextIsTouched(rt, strong, weak, acc, del, cleaned, k, f);
      NextValid(rt, strong, weak, f);
    }
  }

  lemma CleanedNextAt(
    rt: ReferenceTracker, strong: Changes, weak: Changes, acc: World, del: set<Uuid>, cleaned: set<Uuid>, k: nat, f: Uuid)
    requires RoundFinished(rt, strong, weak, acc, del, cleaned, k)
    requires f in cleaned <==> f in Losers(rt.schema, rt.Requested(), k)
    ensures f in cleaned + weak.Keys <==> f in Losers(rt.schema, rt.Requested(), k + 1)
  {
    FinishedCollecting(rt, strong, weak, acc, del, cleaned, k);
    NextIsTouched(rt, strong, weak, acc, del, cleaned, k, f);
    NextValid(rt, strong, weak, f);
    LosesNext(rt.schema, rt.Requested(), k, f);
  }

  lemma StrongHolds(
    rt: ReferenceTracker, strong: Changes, weak: Changes, acc: World, del: set<Uuid>, cleaned: set<Uuid>)
    requires RoundFinished(rt, strong, weak, acc, del, cleaned, 0)
    ensures StrongIntegrity(rt.schema, rt.Requested())
  {
    var w0 := rt.Requested();
    forall e: Edge | IsStrong(rt.schema, e.spec) && Refers(rt.schema, w0, e)
      ensures e.to in w0
    {
      assert e.from in del * w0.Keys <==> e.from in del;
      assert e.from in acc && Refers(rt.schema, acc, e);
    }
  }

  lemma LoserTouched(rt: ReferenceTracker, strong: Changes, weak: Changes, acc: World, del: set<Uuid>, k: nat, f: Uuid)
    requires Found(rt, del, strong, weak) && AtLevel(rt.schema, rt.Requested(), rt.edges, del, k)
    requires f in Losers(rt.schema, rt.Requested(), k) && f in strong + weak
    ensures BrokenRow(rt.schema, rt.Requested(), Toggled(rt.schema, rt.edges, strong + weak), rt.deleted.Keys, Patch(acc, strong + weak), f)
  {
    NextValid(rt, strong, weak, f);
    var e := EarlierLoss(rt.schema, rt.Requested(), rt.edges, del, k, f);
    TouchedTwiceBreaks(rt, strong, weak, acc, del, e);
  }

  lemma EarlierLoss(schema: Schema, w0: World, edges: iset<Edge>, del: set<Uuid>, k: nat, f: Uuid) returns (e: Edge)
    requires AtLevel(schema, w0, edges, del, k) && LosesBy(schema, w0, k, f) && f !in del
    ensures e.from == f && IsWeak(schema, e.spec) && Refers(schema, w0, e) && e !in edges
  {
    var i: nat :| i <= k && LosesAt(schema, w0, i, f);
    e :| e.from == f && DueAt(schema, w0, i, e);
    DueStays(schema, w0, i, k, e);
  }

  lemma BrokenNext(rt: ReferenceTracker, strong: Changes, weak: Changes, acc: World, del: set<Uuid>, k: nat)
    requires Found(rt, del, strong, weak) && AtLevel(rt.schema, rt.Requested(), rt.edges, del, k)
    requires (strong + weak).Keys == Touched(rt.schema, rt.Requested(), k + 1)
    requires Broken(rt.schema, rt.Requested(), rt.edges, del, acc, k)
    ensures Broken(rt.schema, rt.Requested(), Toggled(rt.schema, rt.edges, strong + weak), rt.deleted.Keys, Patch(acc, strong + weak), k + 1)
  {
    forall f | f in Cascaders(rt.schema, rt.Requested(), k + 1)
      ensures BrokenRow(rt.schema, rt.Requested(), Toggled(rt.schema, rt.edges, strong + weak), rt.deleted.Keys, Patch(acc, strong + weak), f)
    {
      if f in Cascaders(rt.schema, rt.Requested(), k) {
        var e: Edge :| e.from == f && BrokenAt(rt.schema, rt.Requested(), rt.edges, del, acc, e);
        BreakStays(rt, strong, weak, acc, del, e);
      } else {
        LoserTouched(rt, strong, weak, acc, del, k, f);
      }
    }
  }

  lemma WholeNext(
    rt: ReferenceTracker, strong: Changes, weak: Changes, acc: World, del: set<Uuid>, cleaned: set<Uuid>, k: nat,
    refs: Changes, after: Changes)
    requires RoundFinished(rt, strong, weak, acc, del, cleaned, k) && cleaned == Losers(rt.schema, rt.Requested(), k)
    requires (strong + weak).Keys == Touched(rt.schema, rt.Requested(), k + 1)
    requires WholeRows(rt.schema, rt.Requested(), rt.edges, acc, refs, k)
    requires forall u :: At(after, u) == MergedChange(refs, strong + weak, u)
    ensures WholeRows(rt.schema, rt.Requested(), Toggled(rt.schema, rt.edges, strong + weak), Patch(acc, strong + weak), after, k + 1)
  {
    forall f | f !in Cascaders(rt.schema, rt.Requested(), k + 1)
      ensures WholeRow(rt.schema, rt.Requested(), Toggled(rt.schema, rt.edges, strong + weak), Patch(acc, strong + weak), after, f)
    {
      assert WholeRow(rt.schema, rt.Requested(), rt.edges, acc, refs, f);
      assert At(after, f) == MergedChange(refs, strong + weak, f);
      if f in strong + weak {
        assert f in (strong + weak).Keys && f !in cleaned;
        StillThere(rt, strong, weak, acc, del, cleaned, f);
        TouchedFirst(rt, strong, weak, acc, refs, after, f);
      } else {
        UntouchedWhole(rt, strong, weak, acc, refs, after, f);
      }
    }
  }

  lemma StillThere(rt: ReferenceTracker, strong: Changes, weak: Changes, acc: World, del: set<Uuid>, cleaned: set<Uuid>, f: Uuid)
    requires Found(rt, del, strong, weak) && Consistent(rt.schema, rt.Requested(), rt.edges, acc, del, cleaned)
    requires f in strong + weak && f !in cleaned
    ensures At(acc, f) == At(rt.Requested(), f)
  {
    NextValid(rt, strong, weak, f);
    assert f in rt.Requested() && f !in del;
  }

  /** One more round. */
  lemma LevelStep(
    rt: ReferenceTracker, strong: Changes, weak: Changes, acc: World, del: set<Uuid>, cleaned: set<Uuid>, cascaded: set<Uuid>, k: nat,
    refs: Changes, after: Changes)
    requires RoundFinished(rt, strong, weak, acc, del, cleaned, k)
    requires Levelled(rt.schema, rt.home, rt.Requested(), rt.edges, del, acc, cleaned, cascaded, refs, k)
    requires forall u :: At(after, u) == MergedChange(refs, strong + weak, u)
    ensures Levelled(rt.schema, rt.home, rt.Requested(), Toggled(rt.schema, rt.edges, strong + weak), rt.deleted.Keys,
                     Patch(acc, strong + weak), cleaned + weak.Keys, cascaded + cleaned * (strong + weak).Keys, after, k + 1)
  {
    FinishedCollecting(rt, strong, weak, acc, del, cleaned, k);
    LevelUp(rt, strong, weak, acc, del, cleaned, k);
    KnownNext(rt, strong, weak, acc, del, cleaned, cascaded, k);
    RefsNext(rt, strong, weak, acc, del, cleaned, k, refs, after);
    AllTouched(rt, strong, weak, acc, del, cleaned, k);
    BrokenNext(rt, strong, weak, acc, del, k);
    WholeNext(rt, strong, weak, acc, del, cleaned, k, refs, after);
  }

  /** Why processing fails: a strong reference of a requested row is to a missing row, or a column
      cannot lose the weak references that are due in some round. */
  ghost predicate Refusable(schema: Schema, w0: World) {
    !StrongIntegrity(schema, w0) || Violates(schema, w0)
  }

  lemma FailureAtLevel(rt: ReferenceTracker, acc: World, del: set<Uuid>, cleaned: set<Uuid>, k: nat)
    requires RoundFailed(rt, acc, del, cleaned) && AtLevel(rt.schema, rt.Requested(), rt.edges, del, k)
    ensures Refusable(rt.schema, rt.Requested())
  {
    var (schema, w0) := (rt.schema, rt.Requested());
    var strong :| CollectFailed(rt, del, strong);
    if StrongMissing(rt, del) {
      var e: Edge :| IsStrong(schema, e.spec) && e in rt.edges && !(e.to in w0 && e.to !in del);
      assert Refers(schema, acc, e) && e.from in acc;
      assert Refers(schema, w0, e);
      GoneIsContained(schema, w0, k, e);
      assert e.to in del * w0.Keys ==> e.from in del * w0.Keys;
      assert e.to !in w0;
    } else {
      assert RoundCollected(rt, strong, acc, del, cleaned, k);
      ViolationIsAtLevel(rt, strong, acc, del, cleaned, k);
    }
  }

  /** Strong references to a collected row come from collected rows. */
  lemma {:induction false} GoneIsContained(schema: Schema, w0: World, k: nat, e: Edge)
    requires IsStrong(schema, e.spec) && Refers(schema, w0, e)
    ensures e.to in Gone(schema, w0, k) ==> e.from in Gone(schema, w0, k)
  {
    if k > 0 {
      GoneIsContained(schema, w0, k - 1, e);
      GoneGrows(schema, w0, k - 1, k);
    }
  }
}
