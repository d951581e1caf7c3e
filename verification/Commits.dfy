/** Reference processing as a whole, the commit of its result, and runs of transactions
    (updates/references.go, database/inmemory/inmemory.go). */
module Commits {
  import opened Values
  import opened Difference
  import opened Merge
  import opened References
  import opened Tracker
  import opened Collector
  import opened GarbageCollection
  import opened Levels
  import opened Rounds
  import opened Outcomes

  // ---- the loop ----

  ghost predicate Initial(rt: ReferenceTracker)
    reads rt
  {
    rt.Valid() && rt.deleted == map[] && rt.added == map[] && rt.edges == EdgesOf(rt.schema, rt.db.rows)
  }

  lemma FirstReady(rt: ReferenceTracker)
    requires Initial(rt)
    ensures Ready(rt, rt.updates, rt.db.rows, {})
  {
    var (schema, w, ups) := (rt.schema, rt.db.rows, rt.updates);
    PatchAgrees(schema, rt.home, w, ups);
    forall u | u in ups
      ensures ValidChange(schema, rt.home, u, ups[u])
      ensures ups[u].update.before.None? ==> u !in w && u in Inserts(ups)
    {
      assert Before(ups[u]) == At(w, u);
      assert ValidChange(schema, rt.home, u, ups[u]);
    }
    assert Patch(w, ups).Keys * Deletes(ups) == {};
    assert Consistent(schema, Patch(w, ups), Toggled(schema, rt.edges, ups), Patch(w, ups), Deletes(ups), {}) by {
      assert Agree(schema, Toggled(schema, rt.edges, ups), Patch(w, ups), true);
    }
    assert rt.deleted.Keys + Deletes(ups) == Deletes(ups);
  }

  /** With nothing to do, everything is settled already. */
  lemma NothingToDo(rt: ReferenceTracker)
    requires Initial(rt) && rt.updates == map[]
    ensures Settled(rt)
  {
    assert rt.Requested() == rt.db.rows;
    forall u | rt.Live(u) && !IsRoot(rt.schema, rt.home(u))
      ensures StronglyIn(rt.schema, rt.edges, u)
    {
      assert StronglyReferenced(rt.schema, rt.db.rows, u);
      var e: Edge :| IsStrong(rt.schema, e.spec) && Refers(rt.schema, rt.db.rows, e) && e.to == u;
      assert e in rt.edges;
    }
  }

  lemma PatchOfValid(schema: Schema, home: Uuid -> Table, w: World, chs: Changes)
    requires ValidWorld(schema, home, w) && forall u :: u in chs ==> ValidChange(schema, home, u, chs[u])
    ensures ValidWorld(schema, home, Patch(w, chs))
  {
    var w' := Patch(w, chs);
    forall u | u in w'
      ensures ValidEntry(schema, w'[u]) && w'[u].table == home(u) && Homed(schema, home, Some(w'[u]))
    {
      if u in chs {
        assert ValidChange(schema, home, u, chs[u]);
        assert After(chs[u]) == Some(w'[u]);
      }
    }
  }

  ghost predicate LoopInvariant(
    rt: ReferenceTracker, batch: Changes, acc: World, cleaned: set<Uuid>, cascaded: set<Uuid>, referenceUpdates: Changes,
    covered: bool, k: nat)
    reads rt
  {
    && Ready(rt, batch, acc, cleaned)
    && ValidWorld(rt.schema, rt.home, acc)
    && Levelled(rt.schema, rt.home, rt.Requested(), Toggled(rt.schema, rt.edges, batch), rt.deleted.Keys + Deletes(batch),
                Patch(acc, batch), cleaned, cascaded, referenceUpdates, k)
    && (batch == map[] ==> Settled(rt))
    && (covered ==> Covered(rt, batch) && Deletes(batch) <= rt.deleted.Keys)
  }

  lemma LoopStarts(rt: ReferenceTracker)
    requires Initial(rt)
    ensures LoopInvariant(rt, rt.updates, rt.db.rows, {}, {}, map[], false, 0)
  {
    FirstReady(rt);
    assert rt.deleted.Keys + Deletes(rt.updates) == Deletes(rt.updates);
    FirstLevel(rt);
    if rt.updates == map[] {
      NothingToDo(rt);
    }
  }

  lemma FirstLevel(rt: ReferenceTracker)
    requires Initial(rt)
    ensures Levelled(rt.schema, rt.home, rt.Requested(), Toggled(rt.schema, rt.edges, rt.updates), Deletes(rt.updates),
                     rt.Requested(), {}, {}, map[], 0)
  {
    var (schema, w0) := (rt.schema, rt.Requested());
    PatchAgrees(schema, rt.home, rt.db.rows, rt.updates);
    assert Deletes(rt.updates) * w0.Keys == {};
    NothingYet(schema, w0);
  }

  lemma LoopStep(
    rt: ReferenceTracker, next: Changes, acc: World, del: set<Uuid>, cleaned: set<Uuid>, cleaned': set<Uuid>, cascaded: set<Uuid>,
    covered: bool, before: Changes, after: Changes, k: nat)
    requires RoundDone(rt, next, acc, del, cleaned, cleaned', covered)
    requires ValidWorld(rt.schema, rt.home, acc)
    requires Levelled(rt.schema, rt.home, rt.Requested(), rt.edges, del, acc, cleaned, cascaded, before, k)
    requires forall u :: At(after, u) == MergedChange(before, next, u)
    ensures LoopInvariant(rt, next, acc, cleaned', cascaded + cleaned * next.Keys, after, true, k + 1)
  {
    var strong, weak :| Found(rt, del, strong, weak) && next == strong + weak && cleaned' == cleaned + weak.Keys;
    LevelStep(rt, strong, weak, acc, del, cleaned, cascaded, k, before, after);
    assert rt.deleted.Keys + Deletes(next) == rt.deleted.Keys;
  }

  /** How many rows are not deleted.  With whether the first batch has been processed, and whether
      there is still something to do, this is the measure of the loop. */
  ghost function Undeleted(rt: ReferenceTracker): nat
    reads rt
  {
    |rt.Requested().Keys - rt.deleted.Keys|
  }

  ghost function Work(rt: ReferenceTracker, batch: Changes): nat
    reads rt
  {
    Undeleted(rt) + if |batch| == 0 then 0 else 1
  }

  /** When rows are collected there is less work left, and so there is when nothing is left to do. */
  lemma LessWork(rt: ReferenceTracker, deleted0: set<Uuid>, batch: Changes, next: Changes)
    requires Advances(rt, deleted0 + Deletes(batch), next) && |batch| > 0
    requires Deletes(next) == {} ==> next == map[]
    ensures Work(rt, next) < |rt.Requested().Keys - deleted0| + 1
  {
    var (a, b) := (rt.Requested().Keys - rt.deleted.Keys, rt.Requested().Keys - deleted0);
    SubsetSize(a, b);
    if u :| u in Deletes(next) {
      assert u in b && u !in a;
      SubsetSize(a + {u}, b);
    }
  }

  method CheckedRound(rt: ReferenceTracker, batch: Changes, ghost acc: World, touched: set<Uuid>, ghost k: nat)
    returns (r: Result<Changes, TrackError>, touched': set<Uuid>)
    requires Ready(rt, batch, acc, touched)
    requires AtLevel(rt.schema, rt.Requested(), Toggled(rt.schema, rt.edges, batch), rt.deleted.Keys + Deletes(batch), k)
    modifies rt
    ensures r.Ok? ==>
      RoundDone(rt, r.value, Patch(acc, batch), old(rt.deleted).Keys + Deletes(batch), touched, touched', old(Covered(rt, batch)))
    ensures r.Err? ==> Refusable(rt.schema, rt.Requested())
    ensures rt.edges == Toggled(rt.schema, old(rt.edges), batch)
  {
    r, touched' := Round(rt, batch, acc, touched);
    if r.Err? {
      FailureAtLevel(rt, Patch(acc, batch), old(rt.deleted).Keys + Deletes(batch), touched, k);
    }
  }

  /** One round of the loop: when an earlier round was complete, it deletes more rows or is the
      last. */
  method NextRound(
    rt: ReferenceTracker, batch: Changes, ghost acc: World, touched: set<Uuid>, cascaded: set<Uuid>, referenceUpdates: Changes,
    ghost covered: bool, ghost k: nat)
    returns (e: Option<TrackError>, batch': Changes, touched': set<Uuid>, cascaded': set<Uuid>, referenceUpdates': Changes)
    requires LoopInvariant(rt, batch, acc, touched, cascaded, referenceUpdates, covered, k)
    modifies rt
    ensures e.None? ==> LoopInvariant(rt, batch', Patch(acc, batch), touched', cascaded', referenceUpdates', true, k + 1)
    ensures e.Some? ==> Refusable(rt.schema, rt.Requested())
    ensures e.None? && covered && |batch| > 0 ==> Work(rt, batch') < old(Work(rt, batch))
  {
    PatchOfValid(rt.schema, rt.home, acc, batch);
    e, batch', cascaded', referenceUpdates' := None, batch, cascaded, referenceUpdates;
    var next;
    next, touched' := CheckedRound(rt, batch, acc, touched, k);
    if next.Err? {
      e := Some(next.error);
      return;
    }
    batch', cascaded' := next.value, cascaded + touched * next.value.Keys;
    if covered && |batch| > 0 {
      LessWork(rt, old(rt.deleted).Keys, batch, batch');
    }
    referenceUpdates' := MergeNext(rt, batch', Patch(acc, batch), old(rt.deleted).Keys + Deletes(batch), touched, touched', cascaded,
                                   old(Covered(rt, batch)), referenceUpdates, k);
  }

  /** The updates of a round merged into those of earlier rounds, which never fails. */
  method MergeNext(
    rt: ReferenceTracker, next: Changes, ghost acc: World, ghost del: set<Uuid>, ghost cleaned: set<Uuid>, ghost cleaned': set<Uuid>,
    ghost cascaded: set<Uuid>, ghost covered: bool, before: Changes, ghost k: nat) returns (after: Changes)
    requires RoundDone(rt, next, acc, del, cleaned, cleaned', covered)
    requires ValidWorld(rt.schema, rt.home, acc)
    requires Levelled(rt.schema, rt.home, rt.Requested(), rt.edges, del, acc, cleaned, cascaded, before, k)
    ensures LoopInvariant(rt, next, acc, cleaned', cascaded + cleaned * next.Keys, after, true, k + 1)
  {
    RoundCanMerge(rt, next, acc, del, cleaned, cleaned', cascaded, covered, before, k);
    var r := MergeChanges(before, next);
    after := r.value;
    LoopStep(rt, next, acc, del, cleaned, cleaned', cascaded, covered, before, after, k);
  }

  lemma RoundCanMerge(
    rt: ReferenceTracker, next: Changes, acc: World, del: set<Uuid>, cleaned: set<Uuid>, cleaned': set<Uuid>, cascaded: set<Uuid>,
    covered: bool, before: Changes, k: nat)
    requires RoundDone(rt, next, acc, del, cleaned, cleaned', covered)
    requires Levelled(rt.schema, rt.home, rt.Requested(), rt.edges, del, acc, cleaned, cascaded, before, k)
    ensures forall u :: u in next ==> MergeUpdate(UpdateOf(before, u), next[u].update).Ok?
  {
    var strong, weak :| Found(rt, del, strong, weak) && next == strong + weak && cleaned' == cleaned + weak.Keys;
    RoundMerges(rt, strong, weak, acc, del, cleaned, k, before);
  }

  /** `processReferencesLoop`: it always ends, and fails exactly when the requested rows refer
      strongly to a missing row or cannot lose the weak references that are due; otherwise
      everything is settled.  The source does not compute `cascaded`, the rows touched after they
      lost weak references. */
  method ProcessReferencesLoop(rt: ReferenceTracker)
    returns (r: Result<Changes, TrackError>, ghost acc: World, ghost cleaned: set<Uuid>, cascaded: set<Uuid>, ghost k: nat)
    requires Initial(rt)
    modifies rt
    ensures r.Ok? ==> Ended(rt, acc, cleaned, cascaded, r.value, k)
    ensures r.Err? ==> Refusable(rt.schema, rt.Requested())
  {
    LoopStarts(rt);
    ghost var batch, covered;
    r, batch, acc, cleaned, cascaded, covered, k := Loop(rt, rt.updates);
    if r.Ok? {
      LoopEnds(rt, batch, acc, cleaned, cascaded, r.value, covered, k);
    }
  }

  method Loop(rt: ReferenceTracker, updates: Changes)
    returns (r: Result<Changes, TrackError>, ghost last: Changes, ghost acc: World, ghost cleaned: set<Uuid>, cascaded: set<Uuid>,
             ghost covered: bool, ghost k: nat)
    requires LoopInvariant(rt, updates, rt.db.rows, {}, {}, map[], false, 0)
    modifies rt
    ensures r.Ok? ==> |last| == 0 && LoopInvariant(rt, last, acc, cleaned, cascaded, r.value, covered, k)
    ensures r.Err? ==> Refusable(rt.schema, rt.Requested())
  {
    var referenceUpdates: Changes := map[];
    var batch, touched: set<Uuid> := updates, {};
    acc, cascaded, covered, k := rt.db.rows, {}, false, 0;
    ghost var work := Work(rt, batch);
    while |batch| > 0
      invariant LoopInvariant(rt, batch, acc, touched, cascaded, referenceUpdates, covered, k) && work == Work(rt, batch)
      decreases !covered, work
    {
      var e;
      ghost var now := Patch(acc, batch);
      e, batch, touched, cascaded, referenceUpdates := NextRound(rt, batch, acc, touched, cascaded, referenceUpdates, covered, k);
      if e.Some? {
        r, last, cleaned := Err(e.value), batch, touched;
        return;
      }
      acc, covered, k, work := now, true, k + 1, Work(rt, batch);
    }
    r, last, cleaned := Ok(referenceUpdates), batch, touched;
  }

  // ---- the outcome ----

  /** `processReferences`: it fails exactly when a requested row refers strongly to a missing row,
      or a column cannot lose the weak references that are due in some round.  On success the rows
      that survive have no strong reference to a missing row, each one outside the root set is
      strongly referenced, and the collected rows are exactly the garbage of the requested rows.
      The merged updates lead from the committed rows to exactly the requested rows without the
      garbage, swept of weak references to missing rows, and the tracked references are theirs,
      unless the transaction breaks: then the rows that the updates lead to and the tracked
      references disagree about a weak reference of a row that cascades.  The flag tells which. */
  method ProcessReferences(rt: ReferenceTracker)
    returns (r: Result<(Changes, Changes), TrackError>, broken: bool)
    requires Initial(rt)
    modifies rt
    ensures r.Err? <==> Refusable(rt.schema, rt.Requested())
    ensures r.Ok? ==> rt.Valid()
    ensures r.Ok? ==> StrongIntegrity(rt.schema, rt.Requested() - CollectedRows(rt))
    ensures r.Ok? ==> Rooted(rt.schema, rt.Requested() - CollectedRows(rt))
    ensures r.Ok? ==> Garbage(rt.schema, rt.Requested(), CollectedRows(rt))
    ensures r.Ok? ==> exists k: nat :: CollectedRows(rt) == Gone(rt.schema, rt.Requested(), k)
    ensures r.Ok? ==> (broken <==> Breaks(rt.schema, rt.db.rows, rt.Requested()))
    ensures r.Ok? && !broken ==> Committable(rt, r.value.0, Sweep(rt.schema, rt.Requested() - CollectedRows(rt)))
    ensures r.Ok? ==> Patch(rt.db.rows, r.value.0).Keys == rt.Requested().Keys - CollectedRows(rt)
    ensures r.Ok? && !broken ==> forall u, c :: ShortIn(rt.schema, rt.Requested(), Patch(rt.db.rows, r.value.0), u, c) ==>
      At(rt.db.rows, u) == At(Patch(rt.db.rows, r.value.0), u)
    ensures (exists C, u, c :: TooFewLeft(rt.schema, rt.Requested(), C, u, c)) ==> r.Err?
    ensures r.Ok? && broken ==> exists e: Edge :: Misplaced(rt.schema, rt.Requested(), rt.edges, Patch(rt.db.rows, r.value.0), e)
  {
    broken := false;
    TooFewRefused(rt.schema, rt.Requested());
    ghost var acc, cleaned, k;
    var referenceUpdates, cascaded;
    referenceUpdates, acc, cleaned, cascaded, k := ProcessReferencesLoop(rt);
    if referenceUpdates.Err? {
      return Err(referenceUpdates.error), broken;
    }
    var refs := referenceUpdates.value;
    LoopMeans(rt, acc, cleaned, cascaded, refs, k);
    StrongOutcome(rt, acc, cleaned);
    FinalMerges(rt, acc, cleaned, cascaded, refs, k);
    var merged := MergeChanges(rt.updates, refs);
    broken := Spoiled(cascaded, rt.deleted.Keys, merged.value);
    SpoiledIff(rt, acc, cleaned, cascaded, refs, k, merged.value);
    FinalKeys(rt, acc, cleaned, cascaded, refs, k, merged.value);
    if broken {
      Disagree(rt, acc, cleaned, cascaded, refs, k, merged.value);
    } else {
      Agrees(rt, acc, cleaned, cascaded, refs, k, merged.value);
    }
    LengthsKept(rt.schema, rt.db.rows, rt.Requested(), Patch(rt.db.rows, merged.value), CollectedRows(rt), broken);
    r := Ok((merged.value, refs));
  }

  /** A column that loses values in one round, and of which too few are left. */
  ghost predicate TooFewLeft(schema: Schema, w0: World, C: set<Uuid>, u: Uuid, c: Column) {
    Garbage(schema, w0, C) && ShortIn(schema, w0, Sweep(schema, w0 - C), u, c) && !RowCascades(schema, w0, u)
  }

  lemma LengthsKept(schema: Schema, rows: World, w0: World, final: World, C: set<Uuid>, broken: bool)
    requires Garbage(schema, w0, C) && !Refusable(schema, w0) && (broken <==> Breaks(schema, rows, w0))
    requires !broken ==> final == Sweep(schema, w0 - C)
    ensures !broken ==> forall u, c :: ShortIn(schema, w0, final, u, c) ==> At(rows, u) == At(final, u)
  {
    if !broken {
      forall u, c | ShortIn(schema, w0, final, u, c)
        ensures At(rows, u) == At(final, u)
      {
        NoneShort(schema, rows, w0, C, u, c);
      }
    }
  }

  lemma TooFewRefused(schema: Schema, w0: World)
    ensures (exists C, u, c :: TooFewLeft(schema, w0, C, u, c)) ==> Refusable(schema, w0)
  {
    if C, u, c :| TooFewLeft(schema, w0, C, u, c) {
      ShortRefused(schema, w0, C, u, c);
    }
  }

  /** What is known when the loop has ended. */
  lemma LoopEnds(
    rt: ReferenceTracker, batch: Changes, acc: World, cleaned: set<Uuid>, cascaded: set<Uuid>, refs: Changes, covered: bool, k: nat)
    requires LoopInvariant(rt, batch, acc, cleaned, cascaded, refs, covered, k) && |batch| == 0
    ensures Ended(rt, acc, cleaned, cascaded, refs, k)
  {
    assert batch == map[];
    EmptyBatch(rt, acc);
  }

  lemma EmptyBatch(rt: ReferenceTracker, acc: World)
    ensures Toggled(rt.schema, rt.edges, map[]) == rt.edges && Patch(acc, map[]) == acc
    ensures rt.deleted.Keys + Deletes(map[]) == rt.deleted.Keys
  {
    NoneToggled(rt.schema, rt.edges, map[]);
  }

  // ---- commit ----

  /** `Commit`: write the rows and the tracked references.  The stored index holds exactly the
      references tracked, so that the database is sound again when these are those of the rows. */
  method Commit(rt: ReferenceTracker, updates: Changes) returns (db: Database)
    requires rt.Valid()
    ensures db.rows == Patch(rt.db.rows, updates)
    ensures Exact(db.references, rt.edges)
    ensures Committable(rt, updates, db.rows) ==> Sound(rt.schema, rt.home, db)
  {
    var references := ApplyReferenceModifications(map[], rt.references);
    var stored := UpdateReferences(rt.db.references, references);
    StoredExact(rt, references, stored);
    db := Database(Patch(rt.db.rows, updates), stored);
  }

  lemma StoredExact(rt: ReferenceTracker, references: Index, stored: Index)
    requires rt.Valid()
    requires forall s, to :: From(references, s, to) == SymDiff(From(map[], s, to), From(rt.references, s, to))
    requires forall s, to :: Has(references, s, to) <==> Has(map[], s, to) || Has(rt.references, s, to)
    requires forall s, to :: From(stored, s, to) == if Has(references, s, to) then references[s][to] else From(rt.db.references, s, to)
    ensures Exact(stored, rt.edges)
  {
    forall e: Edge
      ensures e.from in From(stored, e.spec, e.to) <==> e in rt.edges
    {
      assert From(references, e.spec, e.to) == From(rt.references, e.spec, e.to);
      assert e.from in From(rt.db.references, e.spec, e.to) <==> e in EdgesOf(rt.schema, rt.db.rows);
    }
  }

  // ---- runs ----

  /** The effect of one transaction on the rows, without any algorithm: it changes nothing exactly
      when the requested rows are refused, and otherwise the garbage of the requested rows is
      dropped and the rest swept. */
  ghost predicate Transacted(schema: Schema, w: World, chs: Changes, w': World) {
    if Refusable(schema, Patch(w, chs)) then w' == w
    else exists C :: Garbage(schema, Patch(w, chs), C) && w' == Sweep(schema, Patch(w, chs) - C)
  }

  /** One transaction: it fails and changes nothing, or is committed.  Then the database is sound
      again exactly when the transaction does not break, and has the rows it should have. */
  method TransactOnce(schema: Schema, ghost home: Uuid -> Table, db: Database, chs: Changes)
    returns (db': Database, committed: bool, broken: bool)
    requires Sound(schema, home, db) && ValidChanges(schema, home, db.rows, chs)
    ensures committed <==> !Refusable(schema, Patch(db.rows, chs))
    ensures !committed ==> db' == db
    ensures broken <==> committed && Breaks(schema, db.rows, Patch(db.rows, chs))
    ensures Sound(schema, home, db') <==> !broken
    ensures !broken ==> Transacted(schema, db.rows, chs, db'.rows)
    ensures broken ==> exists C :: Garbage(schema, Patch(db.rows, chs), C) && db'.rows.Keys == Patch(db.rows, chs).Keys - C
    ensures broken ==> exists e: Edge :: Misplaced(schema, Patch(db.rows, chs), Stored(db'.references), db'.rows, e)
  {
    db', committed, broken := db, false, false;
    var rt := new ReferenceTracker(schema, home, db, chs);
    var outcome, spoiled := ProcessReferences(rt);
    if outcome.Ok? {
      db' := Commit(rt, outcome.value.0);
      committed, broken := true, spoiled;
      if broken {
        MisplacedUnsound(schema, home, db', rt.Requested(), rt.edges);
      }
    }
  }

  /** The references that an index holds. */
  ghost function Stored(rs: Index): iset<Edge> {
    iset e: Edge | e.from in From(rs, e.spec, e.to)
  }

  lemma MisplacedUnsound(schema: Schema, home: Uuid -> Table, db: Database, w0: World, edges: iset<Edge>)
    requires Exact(db.references, edges) && exists e: Edge :: Misplaced(schema, w0, edges, db.rows, e)
    ensures !Sound(schema, home, db) && exists e: Edge :: Misplaced(schema, w0, Stored(db.references), db.rows, e)
  {
    var e: Edge :| Misplaced(schema, w0, edges, db.rows, e);
    assert e.from in From(db.references, e.spec, e.to) <==> e in edges;
    assert e in edges <==> !Refers(schema, db.rows, e);
    assert e in EdgesOf(schema, db.rows) <==> Refers(schema, db.rows, e);
    assert Misplaced(schema, w0, Stored(db.references), db.rows, e);
  }

  /** A run of transactions, each asked for on the rows as they are: a failing transaction
      changes nothing, and the run stops short of a transaction that breaks.  After any such run the
      stored references are exact, no reference is to a missing row, and every row outside the root
      set is strongly referenced. */
  method Run(schema: Schema, ghost home: Uuid -> Table, db0: Database, requests: (nat, World) -> Changes, n: nat)
    returns (db: Database, done: nat, ghost trace: seq<World>)
    requires Sound(schema, home, db0)
    requires forall i, w :: ValidWorld(schema, home, w) ==> ValidChanges(schema, home, w, requests(i, w))
    ensures Sound(schema, home, db)
    ensures done <= n && (done < n ==> LeftBroken(schema, db.rows, requests(done, db.rows)))
    ensures !HasWeak(schema) ==> done == n
    ensures Traced(schema, requests, db0.rows, trace, done, db.rows)
  {
    db, done, trace := db0, 0, [db0.rows];
    while done < n
      invariant done <= n && Sound(schema, home, db)
      invariant Traced(schema, requests, db0.rows, trace, done, db.rows)
    {
      ghost var w := db.rows;
      var db', committed, broken := TransactOnce(schema, home, db, requests(done, db.rows));
      if broken {
        BreaksWeak(schema, db.rows, Patch(db.rows, requests(done, db.rows)));
        return;
      }
      db := db';
      TraceGrows(schema, requests, db0.rows, trace, done, w, db.rows);
      trace := trace + [db.rows];
      done := done + 1;
    }
  }

  /** The transaction is committed, and breaks. */
  ghost predicate LeftBroken(schema: Schema, rows: World, chs: Changes) {
    !Refusable(schema, Patch(rows, chs)) && Breaks(schema, rows, Patch(rows, chs))
  }

  /** Without weak references a transaction fails exactly when a requested row refers strongly to a
      missing row, and none breaks. */
  lemma FailureWithoutWeak(schema: Schema, rows: World, w0: World)
    requires !HasWeak(schema)
    ensures Refusable(schema, w0) <==> !StrongIntegrity(schema, w0)
    ensures !Breaks(schema, rows, w0)
  {
    if Violates(schema, w0) {
      ViolatesWeak(schema, w0);
    }
    if Breaks(schema, rows, w0) {
      BreaksWeak(schema, rows, w0);
    }
  }

  lemma ViolatesWeak(schema: Schema, w0: World)
    requires Violates(schema, w0)
    ensures HasWeak(schema)
  {
    var k: nat :| ViolatesIn(schema, w0, k);
    var f: Uuid, c: Column :| ViolatedAt(schema, w0, k, f, c);
    var to :| to in DueTo(schema, w0, k, f, c);
    assert IsWeak(schema, LocationOf(schema, w0[f].table, c));
  }

  lemma BreaksWeak(schema: Schema, rows: World, w0: World)
    requires Breaks(schema, rows, w0)
    ensures HasWeak(schema)
  {
    var C, f :| Garbage(schema, w0, C) && BreaksAt(schema, rows, w0, C, f);
    var i: nat, j: nat :| CascadesAt(schema, w0, i, j, f);
    var e: Edge :| e.from == f && DueAt(schema, w0, i, e);
  }

  /** The rows after each of the first `n` transactions of a run, none of which breaks. */
  ghost predicate Traced(schema: Schema, requests: (nat, World) -> Changes, first: World, trace: seq<World>, n: nat, last: World) {
    && |trace| == n + 1 && trace[0] == first && trace[n] == last
    && forall i :: 0 <= i < n ==>
         Transacted(schema, trace[i], requests(i, trace[i]), trace[i + 1]) && !LeftBroken(schema, trace[i], requests(i, trace[i]))
  }

  lemma TraceGrows(schema: Schema, requests: (nat, World) -> Changes, first: World, trace: seq<World>, n: nat, w: World, w': World)
    requires Traced(schema, requests, first, trace, n, w)
    requires Transacted(schema, w, requests(n, w), w') && !LeftBroken(schema, w, requests(n, w))
    ensures Traced(schema, requests, first, trace + [w'], n + 1, w')
  {
    var t := trace + [w'];
    forall i | 0 <= i < n + 1
      ensures Transacted(schema, t[i], requests(i, t[i]), t[i + 1]) && !LeftBroken(schema, t[i], requests(i, t[i]))
    {
      assert t[i] == trace[i];
      assert i < n ==> t[i + 1] == trace[i + 1];
    }
  }
}
