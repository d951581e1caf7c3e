/** What reference processing leads to: the garbage as a least fixpoint, the rows that are left, and
    the rows that the merged updates lead to (updates/references.go, updates/merge.go). */
module Outcomes {
  import opened Values
  import opened Difference
  import opened Merge
  import opened References
  import opened Tracker
  import opened Collector
  import opened GarbageCollection
  import opened Levels
  import opened Rounds

  // ---- garbage collection as a least fixpoint ----

  /** `X` contains every row outside the root set whose strong references all come from `X`. */
  ghost predicate Closed(schema: Schema, w0: World, X: set<Uuid>) {
    forall u :: u in w0 && !IsRoot(schema, w0[u].table) && OnlyFrom(schema, w0, u, X) ==> u in X
  }

  /** `C` is the least set of rows that contains every row outside the root set whose strong
      references all come from `C`. */
  ghost predicate Garbage(schema: Schema, w0: World, C: set<Uuid>) {
    C <= w0.Keys && Closed(schema, w0, C) && forall X :: Closed(schema, w0, X) ==> C <= X
  }

  /** There is only one such set, whatever the order in which rows are visited. */
  lemma GarbageIsUnique(schema: Schema, w0: World, C: set<Uuid>, D: set<Uuid>)
    requires Garbage(schema, w0, C) && Garbage(schema, w0, D)
    ensures C == D
  {
    assert C <= D && D <= C;
  }

  /** The rows collected in any number of rounds are in every closed set. */
  lemma {:induction false} GoneIsForced(schema: Schema, w0: World, k: nat, X: set<Uuid>)
    requires Closed(schema, w0, X)
    ensures Gone(schema, w0, k) <= X
  {
    if k > 0 {
      GoneIsForced(schema, w0, k - 1, X);
      forall u | u in Gone(schema, w0, k)
        ensures u in X
      {
        if u !in Gone(schema, w0, k - 1) {
          assert OnlyFrom(schema, w0, u, X) by {
            forall e: Edge | IsStrong(schema, e.spec) && Refers(schema, w0, e) && e.to == u
              ensures e.from in X
            {
              assert e.from in Gone(schema, w0, k - 1);
            }
          }
        }
      }
    }
  }

  lemma Larger(a: set<Uuid>, b: set<Uuid>)
    requires a <= b && a != b
    ensures |b| >= |a| + 1
  {
    var u :| u in b && u !in a;
    SubsetSize(a + {u}, b);
  }

  /** Each round collects a row more, or nothing is collected any more. */
  lemma {:induction false} GoneSettles(schema: Schema, w0: World, k: nat, j: nat)
    requires j == k + 1
    ensures Gone(schema, w0, j) == Gone(schema, w0, k) || |Gone(schema, w0, j)| >= j
    decreases k
  {
    if Gone(schema, w0, j) != Gone(schema, w0, k) {
      GoneGrows(schema, w0, k, j);
      Larger(Gone(schema, w0, k), Gone(schema, w0, j));
      if k > 0 {
        SettledBefore(schema, w0, k - 1, k, j);
        GoneSettles(schema, w0, k - 1, k);
      }
    }
  }

  lemma SettledBefore(schema: Schema, w0: World, i: nat, k: nat, j: nat)
    requires k == i + 1 && j == k + 1
    ensures Gone(schema, w0, k) == Gone(schema, w0, i) ==> Gone(schema, w0, j) == Gone(schema, w0, k)
  {
    if Gone(schema, w0, k) == Gone(schema, w0, i) {
      GoneStable(schema, w0, i, j);
    }
  }

  /** The garbage of the rows: what as many rounds as there are rows collect. */
  ghost function GarbageOf(schema: Schema, w0: World): set<Uuid> {
    Gone(schema, w0, |w0.Keys|)
  }

  lemma GarbageExists(schema: Schema, w0: World)
    ensures Garbage(schema, w0, GarbageOf(schema, w0))
  {
    var k := |w0.Keys|;
    GoneSettles(schema, w0, k, k + 1);
    GoneGrows(schema, w0, k + 1, k + 1);
    SubsetSize(Gone(schema, w0, k + 1), w0.Keys);
    assert Gone(schema, w0, k + 1) == Gone(schema, w0, k);
    forall X | Closed(schema, w0, X)
      ensures GarbageOf(schema, w0) <= X
    {
      GoneIsForced(schema, w0, k, X);
    }
  }

  /** A row without its weak references to rows other than `live`. */
  function SweepModel(schema: Schema, x: Entry, live: set<Uuid>): Model {
    map c | c in x.model ::
      if IsWeakColumn(schema, x.table, c) && x.model[c].SetValue?
      then SetValue(set a | a in x.model[c].s && (a.UuidAtom? ==> a.u in live))
      else x.model[c]
  }

  /** The rows without the weak references of their set columns to missing rows. */
  function Sweep(schema: Schema, w: World): World {
    map u | u in w :: Entry(w[u].table, SweepModel(schema, w[u], w.Keys))
  }

  /** Row `f` loses a weak reference in one round and is touched in a later one, and it is collected
      or is not, when processing ends, what it was before the transaction. */
  ghost predicate BreaksAt(schema: Schema, rows: World, w0: World, C: set<Uuid>, f: Uuid) {
    RowCascades(schema, w0, f) && (f in C || At(rows, f) != At(Sweep(schema, w0 - C), f))
  }

  /** The requested rows `w0` are processed to rows and references that disagree. */
  ghost predicate Breaks(schema: Schema, rows: World, w0: World) {
    exists C, f :: Garbage(schema, w0, C) && BreaksAt(schema, rows, w0, C, f)
  }

  // ---- the end of the loop ----

  function CollectedRows(rt: ReferenceTracker): set<Uuid>
    reads rt
  {
    rt.deleted.Keys * Patch(rt.db.rows, rt.updates).Keys
  }

  /** The surviving rows, swept of weak references to missing rows. */
  ghost function Swept(rt: ReferenceTracker): World
    reads rt
  {
    Sweep(rt.schema, rt.Requested() - CollectedRows(rt))
  }

  /** Nothing is left to do after `k` rounds. */
  ghost predicate Ended(rt: ReferenceTracker, acc: World, cleaned: set<Uuid>, cascaded: set<Uuid>, refs: Changes, k: nat)
    reads rt
  {
    && rt.Valid() && Settled(rt) && ValidWorld(rt.schema, rt.home, acc)
    && Consistent(rt.schema, rt.Requested(), rt.edges, acc, rt.deleted.Keys, cleaned)
    && Levelled(rt.schema, rt.home, rt.Requested(), rt.edges, rt.deleted.Keys, acc, cleaned, cascaded, refs, k)
  }

  lemma SurvivorRefers(schema: Schema, w0: World, C: set<Uuid>, e: Edge)
    ensures Refers(schema, w0 - C, e) <==> Refers(schema, w0, e) && e.from !in C
  {
  }

  /** Once everything is settled the surviving rows are closed under strong references, each
      one outside the root set is strongly referenced, and no more rows are to be collected. */
  lemma StrongOutcome(rt: ReferenceTracker, acc: World, cleaned: set<Uuid>)
    requires rt.Valid() && Settled(rt)
    requires Consistent(rt.schema, rt.Requested(), rt.edges, acc, rt.deleted.Keys, cleaned)
    ensures StrongIntegrity(rt.schema, rt.Requested() - CollectedRows(rt))
    ensures Rooted(rt.schema, rt.Requested() - CollectedRows(rt))
    ensures Closed(rt.schema, rt.Requested(), CollectedRows(rt))
  {
    var (schema, w0, C) := (rt.schema, rt.Requested(), CollectedRows(rt));
    var surv := w0 - C;
    PatchValid(schema, rt.home, rt.db.rows, rt.updates);
    forall e: Edge | IsStrong(schema, e.spec)
      ensures Refers(schema, surv, e) <==> e in rt.edges
      ensures e in rt.edges ==> e.to in surv
    {
      SurvivorRefers(schema, w0, C, e);
      StrongSurvivor(rt, acc, cleaned, e);
    }
    forall u | u in surv && !IsRoot(schema, surv[u].table)
      ensures StronglyReferenced(schema, surv, u) && !OnlyFrom(schema, w0, u, C)
    {
      assert rt.Live(u) && surv[u].table == rt.home(u);
      var e: Edge :| IsStrong(schema, e.spec) && e in rt.edges && e.to == u;
      assert Refers(schema, surv, e);
      SurvivorRefers(schema, w0, C, e);
    }
  }

  lemma StrongSurvivor(rt: ReferenceTracker, acc: World, cleaned: set<Uuid>, e: Edge)
    requires rt.Valid() && Settled(rt) && IsStrong(rt.schema, e.spec)
    requires Consistent(rt.schema, rt.Requested(), rt.edges, acc, rt.deleted.Keys, cleaned)
    ensures Refers(rt.schema, rt.Requested(), e) && e.from !in CollectedRows(rt) <==> e in rt.edges
    ensures e in rt.edges ==> e.to in rt.Requested() && e.to !in CollectedRows(rt)
  {
    assert e in rt.edges <==> Refers(rt.schema, acc, e);
    assert e.from in acc <==> e.from in rt.Requested() && e.from !in CollectedRows(rt);
    if e in rt.edges {
      assert rt.Live(e.to);
    }
  }

  /** The rounds that were done are all there are. */
  lemma LastLevel(rt: ReferenceTracker, acc: World, cleaned: set<Uuid>, k: nat)
    requires rt.Valid() && Settled(rt)
    requires Consistent(rt.schema, rt.Requested(), rt.edges, acc, rt.deleted.Keys, cleaned)
    requires AtLevel(rt.schema, rt.Requested(), rt.edges, rt.deleted.Keys, k)
    ensures Gone(rt.schema, rt.Requested(), k + 1) == Gone(rt.schema, rt.Requested(), k)
    ensures k == 0 ==> forall e: Edge :: !DueAt(rt.schema, rt.Requested(), 1, e)
    ensures k == 0 ==> StrongIntegrity(rt.schema, rt.Requested())
  {
    var (schema, w0) := (rt.schema, rt.Requested());
    PatchValid(schema, rt.home, rt.db.rows, rt.updates);
    GoneGrows(schema, w0, k, k + 1);
    forall u | u in Gone(schema, w0, k + 1)
      ensures u in Gone(schema, w0, k)
    {
      NotCollected(rt, acc, cleaned, k, u);
    }
    if k == 0 {
      FirstIsLast(rt, acc, cleaned);
    }
  }

  lemma NotCollected(rt: ReferenceTracker, acc: World, cleaned: set<Uuid>, k: nat, u: Uuid)
    requires rt.Valid() && Settled(rt)
    requires Consistent(rt.schema, rt.Requested(), rt.edges, acc, rt.deleted.Keys, cleaned)
    requires AtLevel(rt.schema, rt.Requested(), rt.edges, rt.deleted.Keys, k)
    requires u in Gone(rt.schema, rt.Requested(), k + 1)
    ensures u in Gone(rt.schema, rt.Requested(), k)
  {
    var (schema, w0) := (rt.schema, rt.Requested());
    PatchValid(schema, rt.home, rt.db.rows, rt.updates);
    assert u in rt.deleted.Keys * w0.Keys <==> u in Gone(schema, w0, k);
    OnlyFromGone(schema, w0, u, rt.deleted.Keys, Gone(schema, w0, k));
    if rt.Live(u) && !IsRoot(schema, rt.home(u)) {
      ReferencedFrom(schema, w0, rt.edges, acc, rt.deleted.Keys, cleaned, u);
    }
  }

  lemma FirstIsLast(rt: ReferenceTracker, acc: World, cleaned: set<Uuid>)
    requires rt.Valid() && Settled(rt)
    requires Consistent(rt.schema, rt.Requested(), rt.edges, acc, rt.deleted.Keys, cleaned)
    requires AtLevel(rt.schema, rt.Requested(), rt.edges, rt.deleted.Keys, 0)
    requires Gone(rt.schema, rt.Requested(), 1) == {}
    ensures forall e: Edge :: !DueAt(rt.schema, rt.Requested(), 1, e)
    ensures StrongIntegrity(rt.schema, rt.Requested())
  {
    var (schema, w0) := (rt.schema, rt.Requested());
    forall e: Edge | Refers(schema, w0, e)
      ensures e.to in w0
    {
      assert e.from in rt.deleted.Keys * w0.Keys <==> e.from in rt.deleted.Keys;
      if IsStrong(schema, e.spec) {
        assert e.from in acc && Refers(schema, acc, e);
        assert e in rt.edges;
      } else {
        assert IsWeak(schema, e.spec) && e in rt.edges;
      }
    }
  }

  /** The loop has succeeded: nothing is violated, the rows touched after they lost weak references
      are those that cascade, and the collected rows are forced. */
  lemma LoopMeans(rt: ReferenceTracker, acc: World, cleaned: set<Uuid>, cascaded: set<Uuid>, refs: Changes, k: nat)
    requires Ended(rt, acc, cleaned, cascaded, refs, k)
    ensures !Refusable(rt.schema, rt.Requested())
    ensures forall f :: f in cascaded <==> RowCascades(rt.schema, rt.Requested(), f)
    ensures Garbage(rt.schema, rt.Requested(), CollectedRows(rt))
    ensures CollectedRows(rt) == Gone(rt.schema, rt.Requested(), k)
  {
    LastLevel(rt, acc, cleaned, k);
    LastRound(rt.schema, rt.Requested(), k);
    StrongOutcome(rt, acc, cleaned);
    forall X | Closed(rt.schema, rt.Requested(), X)
      ensures CollectedRows(rt) <= X
    {
      GoneIsForced(rt.schema, rt.Requested(), k, X);
    }
    forall f
      ensures f in cascaded <==> RowCascades(rt.schema, rt.Requested(), f)
    {
      CascadersLast(rt.schema, rt.Requested(), k, f);
    }
  }

  // ---- what is taken from a row in all rounds ----

  /** Of the weak references of row `u` those to live rows are kept. */
  ghost predicate KeptAreLive(schema: Schema, w0: World, kept: iset<Edge>, live: set<Uuid>, u: Uuid) {
    forall e: Edge :: e.from == u && IsWeak(schema, e.spec) && Refers(schema, w0, e) ==> (e in kept <==> e.to in live)
  }

  lemma LiveKept(rt: ReferenceTracker, k: nat, u: Uuid)
    requires Settled(rt) && AtLevel(rt.schema, rt.Requested(), rt.edges, rt.deleted.Keys, k) && u !in rt.deleted.Keys
    ensures KeptAreLive(rt.schema, rt.Requested(), rt.edges, (rt.Requested() - CollectedRows(rt)).Keys, u)
  {
    var w0 := rt.Requested();
    forall e: Edge | e.from == u && IsWeak(rt.schema, e.spec) && Refers(rt.schema, w0, e)
      ensures e in rt.edges <==> e.to in (w0 - CollectedRows(rt)).Keys
    {
      assert e.to in w0 ==> (e.to in rt.deleted.Keys * w0.Keys <==> e.to in rt.deleted.Keys);
    }
  }

  lemma SweptColumn(schema: Schema, w0: World, kept: iset<Edge>, live: set<Uuid>, u: Uuid, d: Row, c: Column)
    requires u in w0 && c in w0[u].model && KeptAreLive(schema, w0, kept, live, u)
    requires (c in d ==> TakesAt(schema, w0, kept, u, d, c)) && TakesAll(schema, w0, kept, u, d)
    ensures SweepModel(schema, w0[u], live)[c] == if c in d then Apply(w0[u].model[c], d[c]) else w0[u].model[c]
    ensures c in d ==> SameKind(w0[u].model[c], d[c]) && Apply(w0[u].model[c], d[c]) != w0[u].model[c]
  {
    var x := w0[u];
    if IsWeakColumn(schema, x.table, c) && x.model[c].SetValue? {
      var taken: set<Atom> := if c in d then d[c].s else {};
      forall a | a in x.model[c].s && a.UuidAtom?
        ensures a in taken <==> a.u !in live
      {
        var e := EdgeAt(schema, w0, u, c, a.u);
        assert a.u in Targets(x.model[c]);
        assert Refers(schema, w0, e) && IsWeak(schema, e.spec);
        assert e !in kept ==> TakesEdge(d, e) && a == UuidAtom(e.to);
      }
      RestOf(x.model[c].s, taken, live);
      SymDiffLaws(x.model[c].s, taken, {});
    }
  }

  lemma RestOf(s: set<Atom>, taken: set<Atom>, live: set<Uuid>)
    requires taken <= s && forall a :: a in taken ==> a.UuidAtom?
    requires forall a :: a in s && a.UuidAtom? ==> (a in taken <==> a.u !in live)
    ensures (set a | a in s && (a.UuidAtom? ==> a.u in live)) == SymDiff(s, taken)
  {
  }

  /** The swept row is the requested row with all that was taken applied. */
  lemma SweptRow(schema: Schema, w0: World, kept: iset<Edge>, live: set<Uuid>, u: Uuid, d: Row)
    requires u in w0 && KeptAreLive(schema, w0, kept, live, u)
    requires (forall c :: c in d ==> TakesAt(schema, w0, kept, u, d, c)) && TakesAll(schema, w0, kept, u, d)
    ensures Tight(w0[u].model, d) && ApplyDelta(w0[u].model, d) == SweepModel(schema, w0[u], live)
  {
    var m := w0[u].model;
    forall c | c in m
      ensures ApplyDelta(m, d)[c] == SweepModel(schema, w0[u], live)[c]
      ensures c in d ==> SameKind(m[c], d[c]) && Apply(m[c], d[c]) != m[c]
    {
      SweptColumn(schema, w0, kept, live, u, d, c);
    }
    forall c | c in d
      ensures c in m
    {
      assert TakesAt(schema, w0, kept, u, d, c);
    }
  }

  lemma SurvivorSwept(rt: ReferenceTracker, acc: World, refs: Changes, k: nat, u: Uuid)
    requires Settled(rt) && AtLevel(rt.schema, rt.Requested(), rt.edges, rt.deleted.Keys, k)
    requires RefsAt(rt.schema, rt.home, rt.Requested(), rt.edges, rt.deleted.Keys, acc, refs)
    requires u in rt.Requested() && u !in rt.deleted.Keys
    ensures var (m, d) := (rt.Requested()[u].model, TakenBy(refs, u));
      u in Swept(rt) && Tight(m, d) && ApplyDelta(m, d) == Swept(rt)[u].model && Swept(rt)[u].table == rt.Requested()[u].table
  {
    LiveKept(rt, k, u);
    assert u in refs ==> RefShape(rt.schema, rt.home, rt.Requested(), rt.edges, rt.deleted.Keys, acc, u, refs[u]);
    SweptRow(rt.schema, rt.Requested(), rt.edges, (rt.Requested() - CollectedRows(rt)).Keys, u, TakenBy(refs, u));
  }

  // ---- how many values are left ----

  /** The rows to which column `c` of row `u` loses its references in all. */
  function Lost(w0: World, C: set<Uuid>, u: Uuid, c: Column): set<Uuid>
    requires u in w0 && c in w0[u].model
  {
    set to | to in Targets(w0[u].model[c]) && !(to in w0 && to !in C)
  }

  lemma NeverGone(schema: Schema, w0: World, C: set<Uuid>, u: Uuid, i: nat)
    requires Garbage(schema, w0, C) && u !in C
    ensures u !in Gone(schema, w0, i)
  {
    GoneIsForced(schema, w0, i, C);
  }

  /** A lost reference goes in some round. */
  lemma LostSometime(schema: Schema, w0: World, C: set<Uuid>, u: Uuid, c: Column, to: Uuid) returns (i: nat)
    requires Garbage(schema, w0, C) && u in w0 && u !in C && c in w0[u].model && IsWeakColumn(schema, w0[u].table, c)
    requires to in Lost(w0, C, u, c)
    ensures to in DueTo(schema, w0, i, u, c)
  {
    var e := EdgeAt(schema, w0, u, c, to);
    forall j: nat
      ensures u !in Gone(schema, w0, j)
    {
      NeverGone(schema, w0, C, u, j);
    }
    GarbageExists(schema, w0);
    GarbageIsUnique(schema, w0, C, GarbageOf(schema, w0));
    MissingGrows(schema, w0, |w0.Keys|, |w0.Keys| + 1, to);
    i := DueSometime(schema, w0, |w0.Keys| + 1, e);
  }

  /** A row that does not cascade loses its references in one round. */
  lemma OneRound(schema: Schema, w0: World, u: Uuid, c: Column, i: nat, j: nat, to: Uuid, to': Uuid)
    requires !RowCascades(schema, w0, u) && to in DueTo(schema, w0, i, u, c) && to' in DueTo(schema, w0, j, u, c)
    ensures i == j
  {
    assert LosesAt(schema, w0, i, u) && LosesAt(schema, w0, j, u);
    if i < j {
      assert CascadesAt(schema, w0, i, j, u);
    } else if j < i {
      assert CascadesAt(schema, w0, j, i, u);
    }
  }

  lemma LostTogether(schema: Schema, w0: World, C: set<Uuid>, u: Uuid, c: Column, i: nat, to: Uuid)
    requires Garbage(schema, w0, C) && u in w0 && u !in C && c in w0[u].model && IsWeakColumn(schema, w0[u].table, c)
    requires !RowCascades(schema, w0, u) && to in DueTo(schema, w0, i, u, c)
    ensures DueTo(schema, w0, i, u, c) == Lost(w0, C, u, c)
  {
    forall x
      ensures x in DueTo(schema, w0, i, u, c) <==> x in Lost(w0, C, u, c)
    {
      if x in DueTo(schema, w0, i, u, c) {
        GoneIsForced(schema, w0, i, C);
      }
      if x in Lost(w0, C, u, c) {
        var j := LostSometime(schema, w0, C, u, c, x);
        OneRound(schema, w0, u, c, i, j, to, x);
      }
    }
  }

  lemma SweptAway(s: set<Atom>, live: set<Uuid>, lost: set<Uuid>)
    requires lost == set u | u in UuidsOf(s) && u !in live
    ensures |set a | a in s && (a.UuidAtom? ==> a.u in live)| == |s| - |lost|
  {
    var left := set a | a in s && (a.UuidAtom? ==> a.u in live);
    var taken := UuidAtoms(lost);
    forall a
      ensures a in taken <==> a in s && a !in left
    {
      if a in s && a !in left {
        assert a.u in UuidsOf(s) && a == UuidAtom(a.u);
      }
    }
    assert left + taken == s && left !! taken;
    AtomsAreAsMany(lost);
  }

  lemma {:induction false} AtomsAreAsMany(us: set<Uuid>)
    ensures |UuidAtoms(us)| == |us|
  {
    if us != {} {
      var u :| u in us;
      AtomsAreAsMany(us - {u});
      assert UuidAtoms(us) == UuidAtoms(us - {u}) + {UuidAtom(u)};
    }
  }

  /** A set column that loses references: its swept value has fewer values than the column needs, or
      the column is immutable, exactly when some round is violated at it.  The row is to lose all
      its weak references in one round. */
  lemma LengthExact(schema: Schema, w0: World, C: set<Uuid>, u: Uuid, c: Column)
    requires Garbage(schema, w0, C) && u in w0 && u !in C && c in w0[u].model && IsWeakColumn(schema, w0[u].table, c)
    requires schema.tables[w0[u].table][c].kind.SetKind? && w0[u].model[c].SetValue? && !RowCascades(schema, w0, u)
    requires SweepModel(schema, w0[u], (w0 - C).Keys)[c] != w0[u].model[c]
    ensures var (cs, v) := (schema.tables[w0[u].table][c], SweepModel(schema, w0[u], (w0 - C).Keys)[c]);
      |v.s| < cs.kind.min || !cs.mutable <==> exists i: nat :: ViolatedAt(schema, w0, i, u, c)
  {
    var (cs, v) := (schema.tables[w0[u].table][c], SweepModel(schema, w0[u], (w0 - C).Keys)[c]);
    SweptAway(w0[u].model[c].s, (w0 - C).Keys, Lost(w0, C, u, c));
    var a :| a in w0[u].model[c].s && a !in v.s;
    assert a.u in Lost(w0, C, u, c);
    var i := LostSometime(schema, w0, C, u, c, a.u);
    LostTogether(schema, w0, C, u, c, i, a.u);
    if j: nat :| ViolatedAt(schema, w0, j, u, c) {
      var to :| to in DueTo(schema, w0, j, u, c);
      OneRound(schema, w0, u, c, i, j, a.u, to);
    }
    assert |v.s| < cs.kind.min || !cs.mutable ==> ViolatedAt(schema, w0, i, u, c);
  }

  /** A set column has lost values and is left with fewer than its schema asks for. */
  ghost predicate ShortIn(schema: Schema, before: World, after: World, u: Uuid, c: Column) {
    && u in before && u in after && c in before[u].model && c in after[u].model && after[u].model[c] != before[u].model[c]
    && before[u].table in schema.tables && c in schema.tables[before[u].table]
    && schema.tables[before[u].table][c].kind.SetKind? && after[u].model[c].SetValue?
    && |after[u].model[c].s| < schema.tables[before[u].table][c].kind.min
  }

  /** Swept rows that are left too short are refused, when they lose their references in one round. */
  lemma ShortRefused(schema: Schema, w0: World, C: set<Uuid>, u: Uuid, c: Column)
    requires Garbage(schema, w0, C) && ShortIn(schema, w0, Sweep(schema, w0 - C), u, c) && !RowCascades(schema, w0, u)
    ensures Refusable(schema, w0)
  {
    assert IsWeakColumn(schema, w0[u].table, c) && w0[u].model[c].SetValue?;
    LengthExact(schema, w0, C, u, c);
    var i: nat :| ViolatedAt(schema, w0, i, u, c);
    assert ViolatesIn(schema, w0, i);
  }

  /** After a transaction that is neither refused nor breaks, no row is left too short, unless it is
      left exactly as it was before. */
  lemma NoneShort(schema: Schema, rows: World, w0: World, C: set<Uuid>, u: Uuid, c: Column)
    requires Garbage(schema, w0, C) && !Refusable(schema, w0) && !Breaks(schema, rows, w0)
    requires ShortIn(schema, w0, Sweep(schema, w0 - C), u, c)
    ensures At(rows, u) == At(Sweep(schema, w0 - C), u)
  {
    if RowCascades(schema, w0, u) {
      assert !BreaksAt(schema, rows, w0, C, u);
    } else {
      ShortRefused(schema, w0, C, u, c);
    }
  }

  // ---- the updates of the transaction and those of the rounds ----

  lemma FinalDelete(a: ModelUpdate, o: Option<Model>, m: Model)
    requires Summarizes(a, o, Some(m))
    ensures var r := MergeUpdate(a, DeleteUpdate(m));
      && r.Ok?
      && (o.None? ==> r.value == NO_UPDATE)
      && (o.Some? ==> r.value != NO_UPDATE && r.value.after.None?)
  {
  }

  /** A modification that leads from `m` to `s`, although it says `n`: merged with the change from
      `o` to `m` it disappears exactly when `o` is `s`. */
  lemma FinalModify(a: ModelUpdate, o: Option<Model>, m: Model, d: Row, s: Model, n: Model)
    requires Summarizes(a, o, Some(m)) && d != map[] && Tight(m, d) && ApplyDelta(m, d) == s
    requires o.Some? ==> Normal(o.value) && SameAtomTypes(o.value, d)
    ensures var r := MergeUpdate(a, ModifyUpdate(m, d, n));
      && r.Ok? && (r.value == NO_UPDATE <==> o == Some(s)) && (r.value != NO_UPDATE ==> r.value.after == Some(n))
  {
    NonEmptyDelta(m, d);
    if o.Some? && o.value != m {
      MergedDelta(o.value, a.row.value.delta.value, m, d, s);
      NonEmptyDelta(o.value, MergedModify(RowOf(o.value), a.row.value.delta.value, d));
    }
  }

  /** What the transaction asks for is the change from the committed row to the requested row. */
  lemma RequestedSummary(rt: ReferenceTracker, u: Uuid)
    requires rt.Valid()
    ensures Summarizes(UpdateOf(rt.updates, u), ModelIn(rt.db.rows, u), ModelIn(rt.Requested(), u))
    ensures u in rt.updates ==> rt.updates[u].table == rt.home(u) && rt.updates[u].update != NO_UPDATE
    ensures u in rt.db.rows ==> rt.db.rows[u].table == rt.home(u) && Normal(rt.db.rows[u].model)
    ensures u in rt.Requested() ==> rt.Requested()[u].table == rt.home(u)
  {
    PatchValid(rt.schema, rt.home, rt.db.rows, rt.updates);
    if u in rt.updates {
      assert ValidChange(rt.schema, rt.home, u, rt.updates[u]) && Before(rt.updates[u]) == At(rt.db.rows, u);
    }
  }

  /** The final update of a row from which weak references were taken. */
  lemma FinalTaken(rt: ReferenceTracker, acc: World, cleaned: set<Uuid>, cascaded: set<Uuid>, refs: Changes, k: nat, u: Uuid)
    requires Ended(rt, acc, cleaned, cascaded, refs, k) && u in refs && u !in rt.deleted.Keys
    ensures u in Swept(rt) && u in acc
    ensures var r := MergeUpdate(UpdateOf(rt.updates, u), refs[u].update);
      && r.Ok? && (r.value == NO_UPDATE <==> ModelIn(rt.db.rows, u) == Some(Swept(rt)[u].model))
      && (r.value != NO_UPDATE ==> r.value.after == Some(acc[u].model))
  {
    var (w0, d) := (rt.Requested(), TakenBy(refs, u));
    RequestedSummary(rt, u);
    assert RefShape(rt.schema, rt.home, w0, rt.edges, rt.deleted.Keys, acc, u, refs[u]);
    SurvivorSwept(rt, acc, refs, k, u);
    forall c | c in d
      ensures d[c].SetValue?
    {
      assert TakesAt(rt.schema, w0, rt.edges, u, d, c);
    }
    FinalModify(UpdateOf(rt.updates, u), ModelIn(rt.db.rows, u), w0[u].model, d, Swept(rt)[u].model, acc[u].model);
  }

  lemma FinalMerges(rt: ReferenceTracker, acc: World, cleaned: set<Uuid>, cascaded: set<Uuid>, refs: Changes, k: nat)
    requires Ended(rt, acc, cleaned, cascaded, refs, k)
    ensures forall u :: u in refs ==> MergeUpdate(UpdateOf(rt.updates, u), refs[u].update).Ok?
  {
    forall u | u in refs
      ensures MergeUpdate(UpdateOf(rt.updates, u), refs[u].update).Ok?
    {
      if u in rt.deleted.Keys {
        RequestedSummary(rt, u);
        assert RefShape(rt.schema, rt.home, rt.Requested(), rt.edges, rt.deleted.Keys, acc, u, refs[u]);
        FinalDelete(UpdateOf(rt.updates, u), ModelIn(rt.db.rows, u), rt.Requested()[u].model);
      } else {
        FinalTaken(rt, acc, cleaned, cascaded, refs, k, u);
      }
    }
  }

  /** The row that the merged updates of a transaction lead to: a row that survives is left as it
      was before the transaction when that is the swept row, and else is the row of the last
      round. */
  lemma FinalRow(
    rt: ReferenceTracker, acc: World, cleaned: set<Uuid>, cascaded: set<Uuid>, refs: Changes, k: nat, merged: Changes, u: Uuid)
    requires Ended(rt, acc, cleaned, cascaded, refs, k) && At(merged, u) == MergedChange(rt.updates, refs, u)
    requires u in Swept(rt)
    ensures u in acc && (u in merged <==> At(rt.db.rows, u) != At(Swept(rt), u))
    ensures At(Patch(rt.db.rows, merged), u) == if u in merged then At(acc, u) else At(Swept(rt), u)
  {
    RequestedSummary(rt, u);
    assert u in rt.Requested() && u !in rt.deleted.Keys;
    SurvivorSwept(rt, acc, refs, k, u);
    if u in refs {
      assert RefShape(rt.schema, rt.home, rt.Requested(), rt.edges, rt.deleted.Keys, acc, u, refs[u]);
      FinalTaken(rt, acc, cleaned, cascaded, refs, k, u);
      RowTaken(rt.db.rows, acc, rt.updates, refs, merged, Swept(rt), u);
    } else {
      NonEmptyDelta(rt.Requested()[u].model, map[]);
      assert At(acc, u) == At(rt.Requested(), u) == At(Swept(rt), u);
      RowKept(rt.db.rows, rt.Requested(), rt.updates, refs, merged, u);
    }
  }

  lemma RowTaken(rows: World, acc: World, updates: Changes, refs: Changes, merged: Changes, swept: World, u: Uuid)
    requires u in refs && u in swept && u in acc && At(merged, u) == MergedChange(updates, refs, u)
    requires swept[u].table == acc[u].table == refs[u].table && (u in rows ==> rows[u].table == refs[u].table)
    requires var r := MergeUpdate(UpdateOf(updates, u), refs[u].update);
      && r.Ok? && (r.value == NO_UPDATE <==> ModelIn(rows, u) == Some(swept[u].model))
      && (r.value != NO_UPDATE ==> r.value.after == Some(acc[u].model))
    ensures u in merged <==> At(rows, u) != At(swept, u)
    ensures At(Patch(rows, merged), u) == if u in merged then At(acc, u) else At(swept, u)
  {
    assert At(rows, u) == At(swept, u) <==> ModelIn(rows, u) == Some(swept[u].model);
  }

  lemma RowKept(rows: World, w0: World, updates: Changes, refs: Changes, merged: Changes, u: Uuid)
    requires u !in refs && At(merged, u) == MergedChange(updates, refs, u)
    requires w0 == Patch(rows, updates) && Summarizes(UpdateOf(updates, u), ModelIn(rows, u), ModelIn(w0, u))
    requires u in updates ==> updates[u].update != NO_UPDATE
    requires u in rows && u in w0 ==> rows[u].table == w0[u].table
    ensures u in merged <==> At(rows, u) != At(w0, u)
    ensures At(Patch(rows, merged), u) == At(w0, u)
  {
  }

  lemma FinalGone(
    rt: ReferenceTracker, acc: World, cleaned: set<Uuid>, cascaded: set<Uuid>, refs: Changes, k: nat, merged: Changes, u: Uuid)
    requires Ended(rt, acc, cleaned, cascaded, refs, k) && At(merged, u) == MergedChange(rt.updates, refs, u)
    requires u !in Swept(rt)
    ensures u !in Patch(rt.db.rows, merged) && u !in acc
  {
    RequestedSummary(rt, u);
    assert u !in rt.Requested() || u in rt.deleted.Keys;
    if u in refs {
      assert RefShape(rt.schema, rt.home, rt.Requested(), rt.edges, rt.deleted.Keys, acc, u, refs[u]);
      RowGone(rt.db.rows, rt.updates, refs, merged, u, rt.Requested()[u].model);
    } else {
      assert At(acc, u) == At(rt.Requested(), u);
    }
  }

  lemma RowGone(rows: World, updates: Changes, refs: Changes, merged: Changes, u: Uuid, m: Model)
    requires u in refs && refs[u].update == DeleteUpdate(m) && At(merged, u) == MergedChange(updates, refs, u)
    requires Summarizes(UpdateOf(updates, u), ModelIn(rows, u), Some(m))
    ensures u !in Patch(rows, merged)
  {
    FinalDelete(UpdateOf(updates, u), ModelIn(rows, u), m);
  }

  // ---- when rows and references disagree ----

  /** Some row of `cascaded` was collected or has an update in the end. */
  predicate Spoiled(cascaded: set<Uuid>, deleted: set<Uuid>, merged: Changes) {
    exists f :: f in cascaded && (f in deleted || f in merged)
  }

  /** A weak reference of a row that cascades: the row has it although it is not tracked or, when the
      row is gone, it is tracked all the same. */
  ghost predicate Misplaced(schema: Schema, w0: World, edges: iset<Edge>, final: World, e: Edge) {
    && IsWeak(schema, e.spec) && Refers(schema, w0, e) && RowCascades(schema, w0, e.from)
    && if e.from in final then Refers(schema, final, e) && e !in edges else e in edges
  }

  lemma CascaderExists(schema: Schema, w0: World, f: Uuid)
    requires RowCascades(schema, w0, f)
    ensures f in w0
  {
    var i: nat, j: nat :| CascadesAt(schema, w0, i, j, f);
    TouchedExists(schema, w0, j, f);
  }

  lemma SpoiledAt(
    rt: ReferenceTracker, acc: World, cleaned: set<Uuid>, cascaded: set<Uuid>, refs: Changes, k: nat, merged: Changes, f: Uuid)
    requires Ended(rt, acc, cleaned, cascaded, refs, k) && At(merged, f) == MergedChange(rt.updates, refs, f)
    requires f in cascaded <==> RowCascades(rt.schema, rt.Requested(), f)
    ensures BreaksAt(rt.schema, rt.db.rows, rt.Requested(), CollectedRows(rt), f) <==>
      f in cascaded && (f in rt.deleted.Keys || f in merged)
  {
    if f in cascaded {
      CascaderExists(rt.schema, rt.Requested(), f);
      if f !in rt.deleted.Keys {
        FinalRow(rt, acc, cleaned, cascaded, refs, k, merged, f);
      }
    }
  }

  lemma SpoiledIff(
    rt: ReferenceTracker, acc: World, cleaned: set<Uuid>, cascaded: set<Uuid>, refs: Changes, k: nat, merged: Changes)
    requires Ended(rt, acc, cleaned, cascaded, refs, k) && forall u :: At(merged, u) == MergedChange(rt.updates, refs, u)
    ensures Spoiled(cascaded, rt.deleted.Keys, merged) <==> Breaks(rt.schema, rt.db.rows, rt.Requested())
  {
    LoopMeans(rt, acc, cleaned, cascaded, refs, k);
    if Spoiled(cascaded, rt.deleted.Keys, merged) {
      var f :| f in cascaded && (f in rt.deleted.Keys || f in merged);
      SpoiledAt(rt, acc, cleaned, cascaded, refs, k, merged, f);
    }
    if C, f :| Garbage(rt.schema, rt.Requested(), C) && BreaksAt(rt.schema, rt.db.rows, rt.Requested(), C, f) {
      GarbageIsUnique(rt.schema, rt.Requested(), C, CollectedRows(rt));
      SpoiledAt(rt, acc, cleaned, cascaded, refs, k, merged, f);
    }
  }

  /** A row that was touched again after it lost a weak reference makes rows and references disagree
      when it is collected or updated: in the one case a reference of the deleted row is tracked, in
      the other the row has the reference again. */
  lemma Disagree(
    rt: ReferenceTracker, acc: World, cleaned: set<Uuid>, cascaded: set<Uuid>, refs: Changes, k: nat, merged: Changes)
    requires Ended(rt, acc, cleaned, cascaded, refs, k) && forall u :: At(merged, u) == MergedChange(rt.updates, refs, u)
    requires Spoiled(cascaded, rt.deleted.Keys, merged)
    ensures exists e: Edge :: Misplaced(rt.schema, rt.Requested(), rt.edges, Patch(rt.db.rows, merged), e)
  {
    LoopMeans(rt, acc, cleaned, cascaded, refs, k);
    var f :| f in cascaded && (f in rt.deleted.Keys || f in merged);
    assert BrokenRow(rt.schema, rt.Requested(), rt.edges, rt.deleted.Keys, acc, f);
    assert At(merged, f) == MergedChange(rt.updates, refs, f);
    if f in rt.deleted.Keys {
      FinalGone(rt, acc, cleaned, cascaded, refs, k, merged, f);
    } else {
      FinalRow(rt, acc, cleaned, cascaded, refs, k, merged, f);
    }
    BrokenDisagrees(rt.schema, rt.Requested(), rt.edges, rt.deleted.Keys, acc, Patch(rt.db.rows, merged), f);
  }

  lemma BrokenDisagrees(schema: Schema, w0: World, edges: iset<Edge>, del: set<Uuid>, acc: World, final: World, f: Uuid)
    requires BrokenRow(schema, w0, edges, del, acc, f) && RowCascades(schema, w0, f)
    requires if f in del then f !in final else f in final && At(final, f) == At(acc, f)
    ensures exists e: Edge :: Misplaced(schema, w0, edges, final, e)
  {
    var e: Edge :| e.from == f && BrokenAt(schema, w0, edges, del, acc, e);
    assert Misplaced(schema, w0, edges, final, e);
  }

  /** Whatever the updates make of the rows, those that survive remain and no others. */
  lemma FinalKeys(
    rt: ReferenceTracker, acc: World, cleaned: set<Uuid>, cascaded: set<Uuid>, refs: Changes, k: nat, merged: Changes)
    requires Ended(rt, acc, cleaned, cascaded, refs, k) && forall u :: At(merged, u) == MergedChange(rt.updates, refs, u)
    ensures Patch(rt.db.rows, merged).Keys == rt.Requested().Keys - CollectedRows(rt)
  {
    forall u
      ensures u in Patch(rt.db.rows, merged) <==> u in Swept(rt)
    {
      assert At(merged, u) == MergedChange(rt.updates, refs, u);
      if u in Swept(rt) {
        FinalRow(rt, acc, cleaned, cascaded, refs, k, merged, u);
      } else {
        FinalGone(rt, acc, cleaned, cascaded, refs, k, merged, u);
      }
    }
  }

  /** The references from a surviving row are those of the swept row. */
  lemma SurvivorEdges(rt: ReferenceTracker, acc: World, cleaned: set<Uuid>, cascaded: set<Uuid>, refs: Changes, k: nat, e: Edge)
    requires Ended(rt, acc, cleaned, cascaded, refs, k) && e.from in Swept(rt)
    ensures e in rt.edges <==> Refers(rt.schema, Swept(rt), e)
  {
    var (schema, w0, u) := (rt.schema, rt.Requested(), e.from);
    assert u in w0 && u !in rt.deleted.Keys && u in acc;
    if IsStrong(schema, e.spec) {
      assert e in rt.edges <==> Refers(schema, w0, e);
      StrongKept(schema, w0, (w0 - CollectedRows(rt)).Keys, e);
    } else if IsWeak(schema, e.spec) {
      LiveKept(rt, k, u);
      assert u in refs ==> RefShape(schema, rt.home, w0, rt.edges, rt.deleted.Keys, acc, u, refs[u]);
      assert TakesAll(schema, w0, rt.edges, u, TakenBy(refs, u));
      WeakKept(schema, w0, rt.edges, (w0 - CollectedRows(rt)).Keys, TakenBy(refs, u), e);
    } else if e in rt.edges {
      OnlyLocations(rt, e);
    }
  }

  lemma OnlyLocations(rt: ReferenceTracker, e: Edge)
    requires rt.Valid() && e in rt.edges
    ensures IsLocation(rt.schema, e.spec)
  {
    if e.to in rt.tracked {
      assert Has(rt.references, e.spec, e.to);
    }
  }

  lemma StrongKept(schema: Schema, w0: World, live: set<Uuid>, e: Edge)
    requires IsStrong(schema, e.spec) && e.from in w0
    ensures RowRefers(schema, Entry(w0[e.from].table, SweepModel(schema, w0[e.from], live)), e) <==> Refers(schema, w0, e)
  {
  }

  lemma WeakKept(schema: Schema, w0: World, kept: iset<Edge>, live: set<Uuid>, d: Row, e: Edge)
    requires IsWeak(schema, e.spec) && e.from in w0 && KeptAreLive(schema, w0, kept, live, e.from)
    requires (forall c :: c in d ==> TakesAt(schema, w0, kept, e.from, d, c)) && TakesAll(schema, w0, kept, e.from, d)
    requires e in kept ==> Refers(schema, w0, e)
    ensures RowRefers(schema, Entry(w0[e.from].table, SweepModel(schema, w0[e.from], live)), e) <==> e in kept
  {
    var (x, c) := (w0[e.from], e.spec.fromColumn);
    if Refers(schema, w0, e) {
      assert e !in kept ==> TakesEdge(d, e) && TakesAt(schema, w0, kept, e.from, d, c);
      if x.model[c].SetValue? {
        SweptTargets(x.model[c].s, live, e.to);
      }
    } else if c in x.model && x.model[c].SetValue? {
      SweptTargets(x.model[c].s, live, e.to);
    }
  }

  lemma SweptTargets(s: set<Atom>, live: set<Uuid>, u: Uuid)
    ensures u in UuidsOf(set a | a in s && (a.UuidAtom? ==> a.u in live)) <==> u in UuidsOf(s) && u in live
  {
    assert u in UuidsOf(s) <==> UuidAtom(u) in s;
  }

  /** The tracked references are those of the swept rows when no row that cascaded was collected. */
  lemma EdgesSwept(rt: ReferenceTracker, acc: World, cleaned: set<Uuid>, cascaded: set<Uuid>, refs: Changes, k: nat)
    requires Ended(rt, acc, cleaned, cascaded, refs, k) && cascaded !! rt.deleted.Keys
    requires forall f :: f in cascaded ==> f in rt.Requested()
    ensures rt.edges == EdgesOf(rt.schema, Swept(rt))
  {
    forall e: Edge
      ensures e in rt.edges <==> Refers(rt.schema, Swept(rt), e)
    {
      if e.from in Swept(rt) {
        SurvivorEdges(rt, acc, cleaned, cascaded, refs, k, e);
      } else {
        assert e.from !in acc && e.from !in cascaded;
        assert WholeRow(rt.schema, rt.Requested(), rt.edges, acc, refs, e.from);
      }
    }
  }

  /** A row that did not cascade is the swept row. */
  lemma WholeIsSwept(rt: ReferenceTracker, acc: World, cleaned: set<Uuid>, cascaded: set<Uuid>, refs: Changes, k: nat, u: Uuid)
    requires Ended(rt, acc, cleaned, cascaded, refs, k) && u !in cascaded
    ensures At(acc, u) == At(Swept(rt), u)
    ensures Summarizes(UpdateOf(refs, u), ModelIn(rt.Requested(), u), ModelIn(Swept(rt), u))
  {
    assert WholeRow(rt.schema, rt.Requested(), rt.edges, acc, refs, u);
    assert u in acc <==> u in Swept(rt);
    if u in Swept(rt) {
      SurvivorSwept(rt, acc, refs, k, u);
      if u in refs {
        assert RefShape(rt.schema, rt.home, rt.Requested(), rt.edges, rt.deleted.Keys, acc, u, refs[u]);
      }
      RightlyTaken(refs, u, rt.Requested()[u].model, acc[u].model, Swept(rt)[u].model);
    }
  }

  lemma RightlyTaken(refs: Changes, u: Uuid, m: Model, n: Model, s: Model)
    requires u in refs ==> refs[u].update == ModifyUpdate(m, TakenBy(refs, u), n) && TakenBy(refs, u) != map[]
    requires Summarizes(UpdateOf(refs, u), Some(m), Some(n))
    requires Tight(m, TakenBy(refs, u)) && ApplyDelta(m, TakenBy(refs, u)) == s
    ensures n == s
  {
    NonEmptyDelta(m, TakenBy(refs, u));
  }

  lemma AlikeRows(schema: Schema, x: Entry, y: Entry)
    requires ValidEntry(schema, x) && ValidEntry(schema, y) && x.table == y.table
    ensures Normal(x.model) && Alike(x.model, y.model)
  {
    forall c | c in x.model && c in y.model && x.model[c].AtomValue? && y.model[c].AtomValue?
      ensures AtomTypeOf(x.model[c].a) == AtomTypeOf(y.model[c].a)
    {
      assert HasKind(x.model[c], schema.tables[x.table][c].kind);
      assert HasKind(y.model[c], schema.tables[x.table][c].kind);
    }
  }

  /** Merging the change of a row from `w` to `w1` with the one from `w1` to `w2`, which does not
      bring it back. */
  lemma MergeSummaries(schema: Schema, home: Uuid -> Table, a: Changes, b: Changes, w: World, w1: World, w2: World, u: Uuid)
    requires ValidWorld(schema, home, w) && (u in w2 ==> ValidEntry(schema, w2[u]) && w2[u].table == home(u) && u in w1)
    requires Summarizes(UpdateOf(a, u), ModelIn(w, u), ModelIn(w1, u)) && Summarizes(UpdateOf(b, u), ModelIn(w1, u), ModelIn(w2, u))
    ensures var m := MergedChange(a, b, u);
      Summarizes(if m.Some? then m.value.update else NO_UPDATE, ModelIn(w, u), ModelIn(w2, u))
  {
    if u in w && u in w2 {
      AlikeRows(schema, w[u], w2[u]);
    }
    if u in w {
      AlikeRows(schema, w[u], w[u]);
    }
    MergeStep(UpdateOf(a, u), ModelIn(w, u), ModelIn(w1, u), UpdateOf(b, u), ModelIn(w2, u));
  }

  /** The final update of every row is the change from the committed row to the swept row, unless a
      row that cascaded is updated. */
  lemma FinalSummary(
    rt: ReferenceTracker, acc: World, cleaned: set<Uuid>, cascaded: set<Uuid>, refs: Changes, k: nat, merged: Changes, u: Uuid)
    requires Ended(rt, acc, cleaned, cascaded, refs, k) && At(merged, u) == MergedChange(rt.updates, refs, u)
    requires u in cascaded ==> u in Swept(rt) && u !in merged
    ensures Summarizes(UpdateOf(merged, u), ModelIn(rt.db.rows, u), ModelIn(Swept(rt), u))
    ensures u in merged ==> merged[u].table == rt.home(u) && merged[u].update != NO_UPDATE
    ensures u in Swept(rt) ==> At(Swept(rt), u) == At(acc, u) || At(Swept(rt), u) == At(rt.db.rows, u)
  {
    FinalTable(rt, acc, cleaned, cascaded, refs, k, merged, u);
    if u in cascaded {
      FinalRow(rt, acc, cleaned, cascaded, refs, k, merged, u);
    } else {
      WholeSummary(rt, acc, cleaned, cascaded, refs, k, merged, u);
    }
  }

  lemma FinalTable(
    rt: ReferenceTracker, acc: World, cleaned: set<Uuid>, cascaded: set<Uuid>, refs: Changes, k: nat, merged: Changes, u: Uuid)
    requires Ended(rt, acc, cleaned, cascaded, refs, k) && At(merged, u) == MergedChange(rt.updates, refs, u)
    ensures u in merged ==> merged[u].table == rt.home(u) && merged[u].update != NO_UPDATE
  {
    RequestedSummary(rt, u);
    assert u in refs ==> RefShape(rt.schema, rt.home, rt.Requested(), rt.edges, rt.deleted.Keys, acc, u, refs[u]);
  }

  lemma WholeSummary(
    rt: ReferenceTracker, acc: World, cleaned: set<Uuid>, cascaded: set<Uuid>, refs: Changes, k: nat, merged: Changes, u: Uuid)
    requires Ended(rt, acc, cleaned, cascaded, refs, k) && At(merged, u) == MergedChange(rt.updates, refs, u) && u !in cascaded
    ensures Summarizes(UpdateOf(merged, u), ModelIn(rt.db.rows, u), ModelIn(Swept(rt), u))
    ensures At(Swept(rt), u) == At(acc, u)
  {
    RequestedSummary(rt, u);
    WholeIsSwept(rt, acc, cleaned, cascaded, refs, k, u);
    MergeSummaries(rt.schema, rt.home, rt.updates, refs, rt.db.rows, rt.Requested(), Swept(rt), u);
  }

  /** The updates lead to rows that may be committed, and the index tracks their references. */
  ghost predicate Committable(rt: ReferenceTracker, updates: Changes, final: World)
    reads rt
  {
    && ValidChanges(rt.schema, rt.home, rt.db.rows, updates) && Patch(rt.db.rows, updates) == final
    && ValidWorld(rt.schema, rt.home, final) && Integrity(rt.schema, final) && Rooted(rt.schema, final)
    && Tracks(rt.schema, rt.home, rt.db, rt.references, rt.tracked, EdgesOf(rt.schema, final))
  }

  /** The change of every row from `w` to `w'`. */
  ghost predicate SummarizesAll(home: Uuid -> Table, chs: Changes, w: World, w': World) {
    && (forall u :: Summarizes(UpdateOf(chs, u), ModelIn(w, u), ModelIn(w', u)))
    && (forall u :: u in chs ==> chs[u].table == home(u) && chs[u].update != NO_UPDATE)
  }

  /** Changes that summarize the step between two valid worlds lead from the one to the other. */
  lemma SummaryPatches(schema: Schema, home: Uuid -> Table, w: World, w': World, chs: Changes)
    requires ValidWorld(schema, home, w) && ValidWorld(schema, home, w') && SummarizesAll(home, chs, w, w')
    ensures ValidChanges(schema, home, w, chs) && Patch(w, chs) == w'
  {
    forall u
      ensures At(Patch(w, chs), u) == At(w', u)
      ensures u in chs ==> ValidChange(schema, home, u, chs[u]) && Before(chs[u]) == At(w, u)
    {
      SummaryPatchesRow(schema, home, w, w', chs, u);
    }
    forall u
      ensures u in Patch(w, chs) <==> u in w'
      ensures u in w' ==> Patch(w, chs)[u] == w'[u]
    {
      assert At(Patch(w, chs), u) == At(w', u);
    }
  }

  lemma SummaryPatchesRow(schema: Schema, home: Uuid -> Table, w: World, w': World, chs: Changes, u: Uuid)
    requires ValidWorld(schema, home, w) && ValidWorld(schema, home, w') && SummarizesAll(home, chs, w, w')
    ensures At(Patch(w, chs), u) == At(w', u)
    ensures u in chs ==> ValidChange(schema, home, u, chs[u]) && Before(chs[u]) == At(w, u)
  {
    assert Summarizes(UpdateOf(chs, u), ModelIn(w, u), ModelIn(w', u));
    if u in chs {
      assert chs[u].update.before == ModelIn(w, u) && chs[u].update.after == ModelIn(w', u);
      assert Before(chs[u]) == At(w, u) && After(chs[u]) == At(w', u);
    } else {
      assert ModelIn(w, u) == ModelIn(w', u);
    }
  }

  /** The swept rows are sound when the tracked references are theirs. */
  lemma SweptIsSound(rt: ReferenceTracker)
    requires rt.Valid() && Settled(rt) && rt.edges == EdgesOf(rt.schema, Swept(rt))
    ensures Integrity(rt.schema, Swept(rt)) && Rooted(rt.schema, Swept(rt))
  {
    var w := Swept(rt);
    PatchValid(rt.schema, rt.home, rt.db.rows, rt.updates);
    forall e: Edge | Refers(rt.schema, w, e)
      ensures e.to in w
    {
      assert e in rt.edges && e.from !in rt.deleted.Keys;
      assert IsStrong(rt.schema, e.spec) || IsWeak(rt.schema, e.spec);
      assert IsStrong(rt.schema, e.spec) ==> rt.Live(e.to);
    }
    forall u | u in w && !IsRoot(rt.schema, w[u].table)
      ensures StronglyReferenced(rt.schema, w, u)
    {
      assert w[u].table == rt.home(u) && rt.Live(u);
      var e: Edge :| IsStrong(rt.schema, e.spec) && e in rt.edges && e.to == u;
      assert Refers(rt.schema, w, e);
    }
  }

  /** Otherwise the updates lead to exactly the swept rows, and the references tracked are theirs. */
  lemma Agrees(
    rt: ReferenceTracker, acc: World, cleaned: set<Uuid>, cascaded: set<Uuid>, refs: Changes, k: nat, merged: Changes)
    requires Ended(rt, acc, cleaned, cascaded, refs, k) && forall u :: At(merged, u) == MergedChange(rt.updates, refs, u)
    requires !Spoiled(cascaded, rt.deleted.Keys, merged)
    ensures Committable(rt, merged, Swept(rt))
  {
    LoopMeans(rt, acc, cleaned, cascaded, refs, k);
    forall f | f in cascaded
      ensures f in rt.Requested() && f !in rt.deleted.Keys && f !in merged && f in Swept(rt)
    {
      CascaderExists(rt.schema, rt.Requested(), f);
    }
    EdgesSwept(rt, acc, cleaned, cascaded, refs, k);
    SweptIsSound(rt);
    AllSummaries(rt, acc, cleaned, cascaded, refs, k, merged);
    SummaryPatches(rt.schema, rt.home, rt.db.rows, Swept(rt), merged);
  }

  lemma AllSummaries(
    rt: ReferenceTracker, acc: World, cleaned: set<Uuid>, cascaded: set<Uuid>, refs: Changes, k: nat, merged: Changes)
    requires Ended(rt, acc, cleaned, cascaded, refs, k) && forall u :: At(merged, u) == MergedChange(rt.updates, refs, u)
    requires forall u :: u in cascaded ==> u in Swept(rt) && u !in merged
    ensures SummarizesAll(rt.home, merged, rt.db.rows, Swept(rt)) && ValidWorld(rt.schema, rt.home, Swept(rt))
  {
    forall u
      ensures Summarizes(UpdateOf(merged, u), ModelIn(rt.db.rows, u), ModelIn(Swept(rt), u))
      ensures u in merged ==> merged[u].table == rt.home(u) && merged[u].update != NO_UPDATE
      ensures u in Swept(rt) ==> At(Swept(rt), u) == At(acc, u) || At(Swept(rt), u) == At(rt.db.rows, u)
    {
      assert At(merged, u) == MergedChange(rt.updates, refs, u);
      FinalSummary(rt, acc, cleaned, cascaded, refs, k, merged, u);
    }
    SweptValid(rt.schema, rt.home, rt.db.rows, acc, Swept(rt));
  }

  lemma SweptValid(schema: Schema, home: Uuid -> Table, rows: World, acc: World, swept: World)
    requires ValidWorld(schema, home, rows) && ValidWorld(schema, home, acc)
    requires forall u :: u in swept ==> At(swept, u) == At(acc, u) || At(swept, u) == At(rows, u)
    ensures ValidWorld(schema, home, swept)
  {
    forall u | u in swept
      ensures ValidEntry(schema, swept[u]) && swept[u].table == home(u) && Homed(schema, home, Some(swept[u]))
    {
      assert At(swept, u) == At(acc, u) || At(swept, u) == At(rows, u);
    }
  }
}
