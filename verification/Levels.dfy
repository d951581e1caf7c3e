/** What reference processing does round by round, said of the requested rows alone: which rows
    are collected in which round, and which weak references go in which round
    (updates/references.go). */
module Levels {
  import opened Values
  import opened References
  import opened Tracker
  import opened Collector
  import opened GarbageCollection

  /** The rows collected in the first `k` rounds: rows outside the root set all of whose strong
      references come from rows collected earlier. */
  ghost function Gone(schema: Schema, w0: World, k: nat): set<Uuid> {
    if k == 0 then {}
    else set u | u in w0 && (u in Gone(schema, w0, k - 1) ||
                             (!IsRoot(schema, w0[u].table) && OnlyFrom(schema, w0, u, Gone(schema, w0, k - 1))))
  }

  /** A row that is not there after `k` rounds. */
  ghost predicate Missing(schema: Schema, w0: World, k: nat, u: Uuid) {
    u !in w0 || u in Gone(schema, w0, k)
  }

  /** The weak reference goes in round `k`: its row is still there, the row it is to is not, and
      was there a round ago, unless this is the first round. */
  ghost predicate DueAt(schema: Schema, w0: World, k: nat, e: Edge) {
    && k > 0 && IsWeak(schema, e.spec) && Refers(schema, w0, e)
    && e.from !in Gone(schema, w0, k) && Missing(schema, w0, k, e.to)
    && (k > 1 ==> !Missing(schema, w0, k - 1, e.to))
  }

  /** Row `f` loses a weak reference in round `k`. */
  ghost predicate LosesAt(schema: Schema, w0: World, k: nat, f: Uuid) {
    exists e: Edge :: e.from == f && DueAt(schema, w0, k, e)
  }

  /** Row `f` is collected or loses a weak reference in round `k`. */
  ghost predicate TouchedAt(schema: Schema, w0: World, k: nat, f: Uuid) {
    k > 0 && ((f in Gone(schema, w0, k) && f !in Gone(schema, w0, k - 1)) || LosesAt(schema, w0, k, f))
  }

  /** Row `f` loses a weak reference in round `i` and is touched in the later round `j`. */
  ghost predicate CascadesAt(schema: Schema, w0: World, i: nat, j: nat, f: Uuid) {
    0 < i < j && LosesAt(schema, w0, i, f) && TouchedAt(schema, w0, j, f)
  }

  ghost predicate LosesBy(schema: Schema, w0: World, n: nat, f: Uuid) {
    exists i: nat :: i <= n && LosesAt(schema, w0, i, f)
  }

  /** The rows that lose weak references in the first `n` rounds. */
  ghost function Losers(schema: Schema, w0: World, n: nat): set<Uuid> {
    set f | f in w0 && LosesBy(schema, w0, n, f)
  }

  /** The rows touched in round `k`. */
  ghost function Touched(schema: Schema, w0: World, k: nat): set<Uuid> {
    set f | f in w0 && TouchedAt(schema, w0, k, f)
  }

  /** Row `f` loses a weak reference in one round and is touched in a later one. */
  ghost predicate RowCascades(schema: Schema, w0: World, f: Uuid) {
    exists i: nat, j: nat :: CascadesAt(schema, w0, i, j, f)
  }

  /** The rows that have lost weak references and been touched again in the first `n` rounds. */
  ghost function Cascaders(schema: Schema, w0: World, n: nat): set<Uuid> {
    if n == 0 then {} else Cascaders(schema, w0, n - 1) + Losers(schema, w0, n - 1) * Touched(schema, w0, n)
  }

  /** The rows to which column `c` of row `f` loses its references in round `k`. */
  ghost function DueTo(schema: Schema, w0: World, k: nat, f: Uuid, c: Column): set<Uuid> {
    if f in w0 && w0[f].table in schema.tables && c in schema.tables[w0[f].table] && c in w0[f].model
    then set to | to in Targets(w0[f].model[c]) && DueAt(schema, w0, k, Edge(LocationOf(schema, w0[f].table, c), to, f))
    else {}
  }

  /** In round `k` a column loses references although it is immutable, or too many of them. */
  ghost predicate ViolatedAt(schema: Schema, w0: World, k: nat, f: Uuid, c: Column) {
    DueTo(schema, w0, k, f, c) != {} &&
    (|| !schema.tables[w0[f].table][c].mutable
     || ColumnSize(w0[f].model[c]) - |DueTo(schema, w0, k, f, c)| < MinLength(schema.tables[w0[f].table][c]))
  }

  ghost predicate ViolatesIn(schema: Schema, w0: World, k: nat) {
    exists f: Uuid, c: Column :: ViolatedAt(schema, w0, k, f, c)
  }

  ghost predicate ViolatesBy(schema: Schema, w0: World, n: nat) {
    exists k: nat :: k <= n && ViolatesIn(schema, w0, k)
  }

  /** In some round a column is left with fewer values than it needs, or is immutable. */
  ghost predicate Violates(schema: Schema, w0: World) {
    exists k: nat :: ViolatesIn(schema, w0, k)
  }

  // ---- properties ----

  lemma {:induction false} GoneGrows(schema: Schema, w0: World, i: nat, j: nat)
    requires i <= j
    ensures Gone(schema, w0, i) <= Gone(schema, w0, j) <= w0.Keys
    decreases j
  {
    if i < j {
      GoneGrows(schema, w0, i, j - 1);
    }
  }

  lemma MissingGrows(schema: Schema, w0: World, i: nat, j: nat, u: Uuid)
    requires i <= j && Missing(schema, w0, i, u)
    ensures Missing(schema, w0, j, u)
  {
    GoneGrows(schema, w0, i, j);
  }

  /** Once a round collects nothing, no later one does. */
  lemma {:induction false} GoneStable(schema: Schema, w0: World, k: nat, j: nat)
    requires Gone(schema, w0, k + 1) == Gone(schema, w0, k) && k <= j
    ensures Gone(schema, w0, j) == Gone(schema, w0, k)
    decreases j
  {
    if k < j {
      GoneStable(schema, w0, k, j - 1);
    }
  }

  /** After a round that collects nothing and takes no weak reference, no row is touched. */
  lemma NothingLater(schema: Schema, w0: World, k: nat, j: nat, f: Uuid)
    requires Gone(schema, w0, k + 1) == Gone(schema, w0, k) && k < j
    requires k == 0 ==> forall e: Edge :: !DueAt(schema, w0, 1, e)
    ensures !TouchedAt(schema, w0, j, f) && !LosesAt(schema, w0, j, f)
  {
    GoneStable(schema, w0, k, j);
    GoneStable(schema, w0, k, j - 1);
  }

  lemma NoneDueLater(schema: Schema, w0: World, k: nat, j: nat, f: Uuid, c: Column)
    requires Gone(schema, w0, k + 1) == Gone(schema, w0, k) && k < j
    requires k == 0 ==> forall e: Edge :: !DueAt(schema, w0, 1, e)
    ensures !ViolatedAt(schema, w0, j, f, c)
  {
    NothingLater(schema, w0, k, j, f);
    if to :| to in DueTo(schema, w0, j, f, c) {
      assert LosesAt(schema, w0, j, f);
    }
  }

  /** What has been violated by the last round is all that is. */
  lemma LastRound(schema: Schema, w0: World, k: nat)
    requires Gone(schema, w0, k + 1) == Gone(schema, w0, k)
    requires k == 0 ==> forall e: Edge :: !DueAt(schema, w0, 1, e)
    ensures Violates(schema, w0) <==> ViolatesBy(schema, w0, k)
  {
    if j: nat :| ViolatesIn(schema, w0, j) {
      var f: Uuid, c: Column :| ViolatedAt(schema, w0, j, f, c);
      if k < j {
        NoneDueLater(schema, w0, k, j, f, c);
      }
    }
  }

  /** One round more. */
  lemma OneRoundMore(schema: Schema, w0: World, k: nat)
    ensures ViolatesBy(schema, w0, k + 1) <==> ViolatesBy(schema, w0, k) || ViolatesIn(schema, w0, k + 1)
  {
    OneMore((j: nat) => ViolatesIn(schema, w0, j), k);
  }

  lemma LosesNext(schema: Schema, w0: World, k: nat, f: Uuid)
    ensures LosesBy(schema, w0, k + 1, f) <==> LosesBy(schema, w0, k, f) || LosesAt(schema, w0, k + 1, f)
  {
    OneMore((j: nat) => LosesAt(schema, w0, j, f), k);
  }

  lemma {:induction false} CascadersGrow(schema: Schema, w0: World, j: nat, n: nat)
    requires j <= n
    ensures Cascaders(schema, w0, j) <= Cascaders(schema, w0, n)
    decreases n
  {
    if j < n {
      CascadersGrow(schema, w0, j, n - 1);
    }
  }

  /** A row touched after it lost a weak reference is counted. */
  lemma CascadersHave(schema: Schema, w0: World, i: nat, j: nat, n: nat, f: Uuid)
    requires CascadesAt(schema, w0, i, j, f) && j <= n
    ensures f in Cascaders(schema, w0, n)
  {
    TouchedExists(schema, w0, j, f);
    LoserHas(schema, w0, i, j - 1, f);
    assert f in Touched(schema, w0, j);
    CascadersGrow(schema, w0, j, n);
  }

  lemma LoserHas(schema: Schema, w0: World, i: nat, n: nat, f: Uuid)
    requires LosesAt(schema, w0, i, f) && i <= n && f in w0
    ensures f in Losers(schema, w0, n)
  {
  }

  lemma {:induction false} CascadersMean(schema: Schema, w0: World, n: nat, f: Uuid)
    requires f in Cascaders(schema, w0, n)
    ensures RowCascades(schema, w0, f)
  {
    if f in Cascaders(schema, w0, n - 1) {
      CascadersMean(schema, w0, n - 1, f);
    } else {
      var i: nat :| i <= n - 1 && LosesAt(schema, w0, i, f);
      assert CascadesAt(schema, w0, i, n, f);
    }
  }

  /** A row that cascades at all does so by the last round. */
  lemma CascadersLast(schema: Schema, w0: World, k: nat, f: Uuid)
    requires Gone(schema, w0, k + 1) == Gone(schema, w0, k)
    requires k == 0 ==> forall e: Edge :: !DueAt(schema, w0, 1, e)
    ensures f in Cascaders(schema, w0, k) <==> RowCascades(schema, w0, f)
  {
    if f in Cascaders(schema, w0, k) {
      CascadersMean(schema, w0, k, f);
    }
    if i: nat, j: nat :| CascadesAt(schema, w0, i, j, f) {
      if k < j {
        NothingLater(schema, w0, k, j, f);
      }
      CascadersHave(schema, w0, i, j, k, f);
    }
  }

  lemma TouchedExists(schema: Schema, w0: World, k: nat, f: Uuid)
    requires TouchedAt(schema, w0, k, f)
    ensures f in w0
  {
    GoneGrows(schema, w0, k, k);
  }

  lemma OneMore(p: nat -> bool, k: nat)
    ensures (exists j: nat :: j <= k + 1 && p(j)) <==> (exists j: nat :: j <= k && p(j)) || p(k + 1)
  {
    if j: nat :| j <= k + 1 && p(j) {
      assert j <= k || j == k + 1;
    }
  }

  lemma NothingYet(schema: Schema, w0: World)
    ensures Losers(schema, w0, 0) == {} && !ViolatesBy(schema, w0, 0)
  {
  }

  /** A reference that went stays one to a missing row. */
  lemma DueStays(schema: Schema, w0: World, i: nat, k: nat, e: Edge)
    requires i <= k && DueAt(schema, w0, i, e)
    ensures Missing(schema, w0, k, e.to)
  {
    MissingGrows(schema, w0, i, k, e.to);
  }

  /** A reference to a row that is missing in the end goes in some round. */
  lemma {:induction false} DueSometime(schema: Schema, w0: World, k: nat, e: Edge) returns (i: nat)
    requires IsWeak(schema, e.spec) && Refers(schema, w0, e) && Missing(schema, w0, k, e.to) && k > 0
    requires forall j: nat :: e.from !in Gone(schema, w0, j)
    ensures DueAt(schema, w0, i, e)
  {
    if k == 1 || !Missing(schema, w0, k - 1, e.to) {
      i := k;
    } else {
      i := DueSometime(schema, w0, k - 1, e);
    }
  }
}
