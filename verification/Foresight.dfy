/** Which runs of transactions can be foreseen: without schema indexes, all whose conditions ask for
    the keys of a map column at most once (cache/cache.go, database/transaction/transaction.go). */
module Foresight {
  import opened Values
  import opened Cache
  import Query
  import opened Overlay
  import References
  import Outcomes
  import Notices
  import opened Replication
  import opened Tables
  import opened Serving

  /** A table whose indexes are all client indexes, none over a whole set or map. */
  ghost predicate ClientOnly(su: Setup) {
    && ValidSetup(su)
    && forall s :: s in su.specs ==> s.kind == ClientIndex && Query.NoWholeCollections(su.ts, s)
  }

  ghost predicate AllVersionsTyped(ts: TableSchema, h: Versions) {
    forall p :: p in h ==> TypedModel(ts, p.1)
  }

  lemma ClientApart(su: Setup, h: Versions)
    requires ClientOnly(su) && AllVersionsTyped(su.ts, h)
    ensures Apart(su, h)
  {
  }

  lemma {:induction false} PlannedTyped(ts: TableSchema, rows: Rows, ops: seq<Operation>)
    requires AllTyped(ts, rows)
    ensures AllVersionsTyped(ts, Planned(ts, rows, ops))
  {
    if ops != [] {
      PlannedTyped(ts, rows, ops[..|ops| - 1]);
    }
  }

  /** At most one `includes` condition on each map column. */
  ghost predicate AsksOnce(op: Operation) {
    !op.Insert? ==> Query.SingleIncludes(op.where)
  }

  lemma TableIsForeseeable(su: Setup, rows: Rows, ops: seq<Operation>)
    requires ClientOnly(su) && forall i :: 0 <= i < |ops| ==> AsksOnce(ops[i])
    ensures TableForeseeable(su, rows, ops)
  {
    forall i | 0 <= i < |ops| && !ops[i].Insert?
      ensures Query.Benign(su, ops[i].where)
    {
      Query.SingleIncludesBenign(su, ops[i].where);
    }
    if AllTyped(su.ts, rows) {
      PlannedTyped(su.ts, rows, ops);
      ClientApart(su, Planned(su.ts, rows, ops));
    }
  }

  // ---- rows stay typed ----

  ghost predicate TypedServer(sus: Setups, rows: Server) {
    forall t :: t in rows ==> t in sus && AllTyped(sus[t].ts, rows[t])
  }

  ghost predicate SetupsFor(schema: References.Schema, sus: Setups) {
    sus.Keys == schema.tables.Keys && forall t :: t in sus ==> sus[t].ts == schema.tables[t] && ClientOnly(sus[t])
  }

  lemma SweptTyped(schema: References.Schema, x: References.Entry, live: set<Uuid>)
    requires x.table in schema.tables && TypedModel(schema.tables[x.table], x.model)
    ensures TypedModel(schema.tables[x.table], Outcomes.SweepModel(schema, x, live))
  {
    var (ts, n) := (schema.tables[x.table], Outcomes.SweepModel(schema, x, live));
    forall c | c in ts
      ensures HasKind(n[c], ts[c].kind)
    {
      assert HasKind(x.model[c], ts[c].kind);
    }
  }

  lemma AfterTablesTyped(sus: Setups, rows: Server, steps: seq<Step>)
    requires TypedServer(sus, rows)
    ensures TypedServer(sus, AfterTables(sus, rows, steps)) && AfterTables(sus, rows, steps).Keys == rows.Keys
  {
  }

  lemma AllRowsTyped(schema: References.Schema, sus: Setups, rows: Server, u: Uuid)
    requires SetupsFor(schema, sus) && TypedServer(sus, rows) && u in AllRows(rows)
    ensures var x := AllRows(rows)[u]; x.table in schema.tables && TypedModel(schema.tables[x.table], x.model)
  {
  }

  lemma AfterJobTyped(schema: References.Schema, sus: Setups, rows: Server, steps: seq<Step>)
    requires SetupsFor(schema, sus) && TypedServer(sus, rows) && rows.Keys == schema.tables.Keys
    ensures TypedServer(sus, AfterJob(schema, sus, rows, steps)) && AfterJob(schema, sus, rows, steps).Keys == schema.tables.Keys
  {
    if !JobRefused(schema, sus, rows, steps) {
      AfterTablesTyped(sus, rows, steps);
      SweptTablesTyped(schema, sus, AfterTables(sus, rows, steps));
    }
  }

  lemma SweptTablesTyped(schema: References.Schema, sus: Setups, rows: Server)
    requires SetupsFor(schema, sus) && TypedServer(sus, rows)
    ensures TypedServer(sus, SweptTables(schema, AllRows(rows))) && SweptTables(schema, AllRows(rows)).Keys == schema.tables.Keys
  {
    var (w, r) := (AllRows(rows), SweptTables(schema, AllRows(rows)));
    forall t, u | t in r && u in r[t]
      ensures t in sus && TypedModel(sus[t].ts, r[t][u])
    {
      AllRowsTyped(schema, sus, rows, u);
      SweptTyped(schema, w[u], (w - Outcomes.GarbageOf(schema, w)).Keys);
    }
  }

  lemma {:induction false} AfterJobsTyped(schema: References.Schema, sus: Setups, rows: Server, jobs: Jobs)
    requires SetupsFor(schema, sus) && TypedServer(sus, rows) && rows.Keys == schema.tables.Keys
    ensures TypedServer(sus, AfterJobs(schema, sus, rows, jobs)) && AfterJobs(schema, sus, rows, jobs).Keys == schema.tables.Keys
  {
    if jobs != [] {
      AfterJobsTyped(schema, sus, rows, jobs[..|jobs| - 1]);
      AfterJobTyped(schema, sus, AfterJobs(schema, sus, rows, jobs[..|jobs| - 1]), jobs[|jobs| - 1]);
    }
  }

  lemma {:induction false} VersionsTyped(schema: References.Schema, sus: Setups, rows: Server, jobs: Jobs, t: Table)
    requires SetupsFor(schema, sus) && TypedServer(sus, rows) && rows.Keys == schema.tables.Keys && t in sus
    ensures AllVersionsTyped(sus[t].ts, VersionsIn(schema, sus, rows, jobs, t))
  {
    AfterJobsTyped(schema, sus, rows, jobs);
    if jobs != [] {
      VersionsTyped(schema, sus, rows, jobs[..|jobs| - 1], t);
    }
  }

  // ---- runs ----

  /** Conditions have the types of their columns and are supported on them. */
  ghost predicate GoodStep(sus: Setups, step: Step) {
    AsksOnce(step.op) && (step.table in sus ==> Proper(sus[step.table].ts, step.op))
  }

  lemma {:induction false} OpsAskOnce(steps: seq<Step>, t: Table)
    requires forall i :: 0 <= i < |steps| ==> AsksOnce(steps[i].op)
    ensures forall i :: 0 <= i < |OpsOn(steps, t)| ==> AsksOnce(OpsOn(steps, t)[i])
  {
    if steps != [] {
      OpsAskOnce(steps[..|steps| - 1], t);
    }
  }

  lemma JobIsForeseeable(sus: Setups, rows: Server, steps: seq<Step>)
    requires TypedServer(sus, rows) && forall t :: t in sus ==> ClientOnly(sus[t])
    requires forall i :: 0 <= i < |steps| ==> GoodStep(sus, steps[i])
    ensures JobForeseeable(sus, rows, steps)
  {
    forall t | t in rows
      ensures TableForeseeable(sus[t], rows[t], OpsOn(steps, t))
    {
      OpsAskOnce(steps, t);
      TableIsForeseeable(sus[t], rows[t], OpsOn(steps, t));
    }
  }

  /** Without schema indexes every run of good operations is foreseeable, whatever the rows. */
  lemma RunIsForeseeable(schema: References.Schema, sus: Setups, rows: Server, sh: Histories, jobs: Jobs)
    requires SetupsFor(schema, sus) && TypedServer(sus, rows) && rows.Keys == schema.tables.Keys
    requires forall t :: t in sus ==> t in sh && AllVersionsTyped(sus[t].ts, sh[t])
    requires forall i, j :: 0 <= i < |jobs| && 0 <= j < |jobs[i]| ==> GoodStep(sus, jobs[i][j])
    ensures Foreseeable(schema, sus, rows, sh, jobs)
  {
    forall i | 0 <= i < |jobs|
      ensures JobForeseeable(sus, AfterJobs(schema, sus, rows, jobs[..i]), jobs[i])
    {
      AfterJobsTyped(schema, sus, rows, jobs[..i]);
      JobIsForeseeable(sus, AfterJobs(schema, sus, rows, jobs[..i]), jobs[i]);
    }
    forall t | t in sus
      ensures ApartIn(sus[t], sh[t] + VersionsIn(schema, sus, rows, jobs, t))
    {
      VersionsTyped(schema, sus, rows, jobs, t);
      ClientApart(sus[t], sh[t] + VersionsIn(schema, sus, rows, jobs, t));
    }
  }
}
