/** Transactions on several tables: each operation works on the rows of its table as the operations
    before it have left them (database/transaction/transaction.go). */
module Tables {
  import opened Values
  import opened Difference
  import opened Merge
  import opened Operations
  import opened ModelUpdates
  import opened Cache
  import opened Query
  import opened Overlay
  import opened Replication
  import References
  import Worlds

  /** An operation and its table. */
  datatype Step = Step(table: Table, op: Operation)

  /** The operations on one table. */
  function OpsOn(steps: seq<Step>, t: Table): seq<Operation> {
    if steps == [] then []
    else
      var (front, last) := (steps[..|steps| - 1], steps[|steps| - 1]);
      OpsOn(front, t) + if last.table == t then [last.op] else []
  }

  /** How many of the first `n` operations are on table `t`. */
  function Count(steps: seq<Step>, n: nat, t: Table): nat
    requires n <= |steps|
  {
    |OpsOn(steps[..n], t)|
  }

  lemma {:induction false} OpsPrefix(steps: seq<Step>, n: nat, t: Table)
    requires n <= |steps|
    ensures OpsOn(steps[..n], t) <= OpsOn(steps, t)
    decreases |steps|
  {
    if n == |steps| {
      assert steps[..n] == steps;
    } else {
      var front := steps[..|steps| - 1];
      assert front[..n] == steps[..n];
      OpsPrefix(front, n, t);
    }
  }

  lemma OpsNext(steps: seq<Step>, n: nat, t: Table)
    requires n < |steps|
    ensures Count(steps, n + 1, t) == Count(steps, n, t) + if steps[n].table == t then 1 else 0
    ensures Count(steps, n + 1, t) <= |OpsOn(steps, t)|
    ensures steps[n].table == t ==> OpsOn(steps, t)[Count(steps, n, t)] == steps[n].op
  {
    var next := steps[..n + 1];
    assert next[..n] == steps[..n] && next[n] == steps[n];
    OpsPrefix(steps, n + 1, t);
    assert OpsOn(next, t) <= OpsOn(steps, t);
  }

  lemma {:induction false} OpsAre(steps: seq<Step>, t: Table, op: Operation)
    requires op in OpsOn(steps, t)
    ensures Step(t, op) in steps
  {
    var front := steps[..|steps| - 1];
    if op in OpsOn(front, t) {
      OpsAre(front, t, op);
    }
  }

  // ---- the transaction, one overlay for each table ----

  type Txns = map<Table, Transaction>

  /** Each table has its own objects, none of which is a cache of the server. */
  ghost predicate Opened(servers: Caches, txns: Txns) {
    && txns.Keys <= servers.Keys
    && (forall t :: t in txns ==> txns[t].db == servers[t] && txns[t].table == t)
    && (forall t, t' :: t in txns && t' in servers ==> txns[t].txn != servers[t'])
    && (forall t, t' :: t in txns && t' in txns && t != t' ==>
          txns[t] != txns[t'] && txns[t].txn != txns[t'].txn && txns[t].updates != txns[t'].updates)
  }

  /** A table before the first operation. */
  ghost predicate Untouched(txn: Transaction)
    reads txn, txn.db, txn.txn, txn.updates
  {
    txn.Valid() && txn.View() == txn.db.cache && txn.deleted == {} && txn.txn.cache == map[] && txn.history == {}
  }

  /** The objects of a transaction are all in `repr`. */
  ghost predicate Owns(txns: Txns, repr: set<object>) {
    forall t :: t in txns ==> txns[t] in repr && txns[t].txn in repr && txns[t].updates in repr
  }

  /** The tables that are not as before the first operation. */
  ghost function Worked(txns: Txns): set<Table>
    reads *
  {
    set t | t in txns && !Untouched(txns[t])
  }

  ghost predicate AllUntouched(txns: Txns)
    reads *
  {
    Worked(txns) == {}
  }

  /** The caches of the server are valid, with no all-zero UUID. */
  ghost predicate ReadyCaches(servers: Caches)
    reads servers.Values
  {
    Unfit(servers) == {}
  }

  ghost function Unfit(servers: Caches): set<Table>
    reads servers.Values
  {
    set t | t in servers && !(servers[t].Valid() && AllNormal(servers[t].cache))
  }

  /** The tables other than `todo` are opened. */
  ghost predicate OpenedBut(servers: Caches, txns: Txns, todo: set<Table>)
    reads *
  {
    Opening(servers.Keys, txns.Keys, todo) && ReadyCaches(servers) && Opened(servers, txns) && AllUntouched(txns)
  }

  /** A new table leaves the others alone. */
  method OpenBeside(servers: Caches, txns: Txns, t: Table) returns (txn: Transaction)
    requires t in servers && ReadyCaches(servers) && AllUntouched(txns)
    ensures fresh(txn) && fresh(txn.txn) && fresh(txn.updates) && txn.db == servers[t] && txn.table == t && Untouched(txn)
    ensures ReadyCaches(servers) && AllUntouched(txns)
  {
    ghost var worked := Worked(txns);
    assert t !in Unfit(servers);
    txn := new Transaction(t, servers[t]);
    forall t' | t' in txns
      ensures Untouched(txns[t'])
    {
      assert t' !in worked;
      assert old(Untouched(txns[t']));
    }
  }

  lemma OpenedWith(servers: Caches, txns: Txns, t: Table, txn: Transaction)
    requires Opened(servers, txns) && t in servers && t !in txns && txn.db == servers[t] && txn.table == t
    requires forall t' :: t' in servers ==> txn.txn != servers[t']
    requires forall t' :: t' in txns ==> txn != txns[t'] && txn.txn != txns[t'].txn && txn.updates != txns[t'].updates
    ensures Opened(servers, txns[t := txn])
  {
  }

  lemma UntouchedWith(txns: Txns, t: Table, txn: Transaction)
    requires AllUntouched(txns) && Untouched(txn)
    ensures AllUntouched(txns[t := txn])
  {
    forall t' | t' in txns
      ensures Untouched(txns[t'])
    {
      assert t' !in Worked(txns);
    }
  }

  method OpenOne(servers: Caches, txns: Txns, t: Table, ghost todo: set<Table>, ghost repr: set<object>)
    returns (txns': Txns, ghost repr': set<object>)
    requires OpenedBut(servers, txns, todo) && Owns(txns, repr) && t in todo
    ensures OpenedBut(servers, txns', todo - {t}) && Owns(txns', repr') && fresh(repr' - repr)
  {
    var txn := OpenBeside(servers, txns, t);
    OpeningNext(servers.Keys, txns.Keys, todo, t);
    OpenedWith(servers, txns, t, txn);
    UntouchedWith(txns, t, txn);
    txns' := txns[t := txn];
    repr' := repr + {txn, txn.txn, txn.updates};
    OwnsWith(txns, repr, t, txn);
  }

  lemma OwnsWith(txns: Txns, repr: set<object>, t: Table, txn: Transaction)
    requires Owns(txns, repr)
    ensures Owns(txns[t := txn], repr + {txn, txn.txn, txn.updates}) && txns[t := txn].Keys == txns.Keys + {t}
  {
  }

  predicate Opening(all: set<Table>, done: set<Table>, todo: set<Table>) {
    done + todo == all && done !! todo
  }

  lemma OpeningNext(all: set<Table>, done: set<Table>, todo: set<Table>, t: Table)
    requires Opening(all, done, todo) && t in todo
    ensures Opening(all, done + {t}, todo - {t})
  {
  }

  method OpenAll(servers: Caches) returns (txns: Txns, ghost repr: set<object>)
    requires ReadyCaches(servers)
    ensures OpenedBut(servers, txns, {}) && fresh(repr) && Owns(txns, repr)
  {
    txns, repr := map[], {};
    var todo := servers.Keys;
    while todo != {}
      invariant OpenedBut(servers, txns, todo) && fresh(repr) && Owns(txns, repr)
      decreases todo
    {
      var t :| t in todo;
      txns, repr := OpenOne(servers, txns, t, todo, repr);
      todo := todo - {t};
    }
  }

  /** The database as the transaction sees it. */
  ghost function Views(txns: Txns): Server
    reads *
  {
    map t | t in txns :: txns[t].View()
  }

  /** What is known beforehand: the rows of the tables, their indexes, the operations, and whether
      queries can be answered through indexes. */
  datatype Plan = Plan(home: Uuid -> Table, rows: Server, indexes: map<Table, Indexes>, steps: seq<Step>, planned: bool)

  /** What holds of one table after the first `n` operations. */
  ghost predicate AlongAt(txn: Transaction, p: Plan, n: nat, t: Table)
    reads txn, txn.db, txn.txn, txn.updates
  {
    && n <= |p.steps| && t in p.rows && t in p.indexes && Count(p.steps, n, t) <= |OpsOn(p.steps, t)|
    && Along(txn, p.rows[t], p.indexes[t], OpsOn(p.steps, t), Count(p.steps, n, t), p.planned)
    && Worlds.RowsOk(p.home, t, txn.db.su.ts, txn.View())
  }

  /** The tables of which it does not hold. */
  ghost function Astray(txns: Txns, p: Plan, n: nat): set<Table>
    reads *
  {
    set t | t in txns && !AlongAt(txns[t], p, n, t)
  }

  ghost predicate AllAlong(txns: Txns, p: Plan, n: nat)
    reads *
  {
    Astray(txns, p, n) == {}
  }

  /** The operations are on known tables, insert new rows and keep references in order; and if the
      plan says so, their queries can be answered through indexes. */
  ghost predicate Sensible(sus: map<Table, Setup>, p: Plan) {
    && (forall i :: 0 <= i < |p.steps| ==> SensibleStep(sus, p.home, p.steps[i]))
    && Unready(sus, p) == {}
  }

  ghost function Unready(sus: map<Table, Setup>, p: Plan): set<Table> {
    set t | t in sus && !SensibleTable(sus[t], p, t)
  }

  ghost predicate SensibleStep(sus: map<Table, Setup>, home: Uuid -> Table, step: Step) {
    step.table in sus && Worlds.OperationOk(home, step.table, sus[step.table].ts, step.op)
  }

  ghost predicate SensibleTable(su: Setup, p: Plan, t: Table) {
    && t in p.rows && t in p.indexes && Worlds.RefColumns(su.ts) && FreshInserts(p.rows[t], OpsOn(p.steps, t))
    && (p.planned ==> Plannable(su, p.rows[t], p.indexes[t], OpsOn(p.steps, t)))
  }

  function SetupsOf(servers: Caches): map<Table, Setup> {
    map t | t in servers :: servers[t].su
  }

  /** Operation `n` fails on what those before it make of its table. */
  ghost predicate StepFails(ts: TableSchema, rows: Rows, steps: seq<Step>, n: nat)
    requires n < |steps|
  {
    var t := steps[n].table;
    AllTyped(ts, rows) && Count(steps, n, t) < |OpsOn(steps, t)| && FailsAt(ts, rows, OpsOn(steps, t), Count(steps, n, t))
  }

  /** One operation on its table. */
  method PerformTable(txn: Transaction, ghost p: Plan, step: Step, ghost n: nat) returns (e: Option<TxnError>)
    requires n < |p.steps| && step == p.steps[n] && AlongAt(txn, p, n, step.table) && SensibleTable(txn.db.su, p, step.table)
    requires Worlds.OperationOk(p.home, step.table, txn.db.su.ts, step.op)
    modifies txn, txn.txn, txn.updates
    ensures e.None? ==> AlongAt(txn, p, n + 1, step.table)
    ensures p.planned && Proper(txn.db.su.ts, step.op) ==>
      (e.Some? <==> StepFails(txn.db.su.ts, p.rows[step.table], p.steps, n))
  {
    ghost var (t, view) := (step.table, txn.View());
    OpsNext(p.steps, n, t);
    e := PerformNext(txn, p.rows[t], p.indexes[t], OpsOn(p.steps, t), step.op, Count(p.steps, n, t), p.planned);
    if e.None? {
      Worlds.RowWiseOk(p.home, t, txn.db.su.ts, view, step.op, txn.View());
    }
  }

  lemma Idle(txn: Transaction, p: Plan, n: nat, t: Table)
    requires n < |p.steps| && p.steps[n].table != t && AlongAt(txn, p, n, t)
    ensures AlongAt(txn, p, n + 1, t)
  {
    OpsNext(p.steps, n, t);
  }

  /** One operation leaves the other tables alone. */
  method PerformBeside(servers: Caches, txns: Txns, ghost p: Plan, step: Step, ghost n: nat) returns (e: Option<TxnError>)
    requires n < |p.steps| && step == p.steps[n] && step.table in txns && Opened(servers, txns)
    requires AlongAt(txns[step.table], p, n, step.table) && SensibleTable(servers[step.table].su, p, step.table)
    requires Worlds.OperationOk(p.home, step.table, servers[step.table].su.ts, step.op)
    modifies txns[step.table], txns[step.table].txn, txns[step.table].updates
    ensures e.None? ==> AlongAt(txns[step.table], p, n + 1, step.table)
    ensures p.planned && Proper(servers[step.table].su.ts, step.op) ==>
      (e.Some? <==> StepFails(servers[step.table].su.ts, p.rows[step.table], p.steps, n))
    ensures forall t :: t in txns && t != step.table ==> (old(AlongAt(txns[t], p, n, t)) ==> AlongAt(txns[t], p, n, t))
  {
    e := PerformTable(txns[step.table], p, step, n);
  }

  /** One operation. */
  method PerformOn(servers: Caches, txns: Txns, ghost p: Plan, step: Step, ghost n: nat) returns (e: Option<TxnError>)
    requires n < |p.steps| && step == p.steps[n] && txns.Keys == servers.Keys && Opened(servers, txns)
    requires Sensible(SetupsOf(servers), p) && AllAlong(txns, p, n)
    modifies txns[step.table], txns[step.table].txn, txns[step.table].updates
    ensures e.None? ==> AllAlong(txns, p, n + 1)
    ensures p.planned && Proper(servers[step.table].su.ts, step.op) ==> (e.Some? <==> FailsIn(SetupsOf(servers), p.rows, p.steps, n))
  {
    assert SensibleStep(SetupsOf(servers), p.home, p.steps[n]);
    assert step.table !in Astray(txns, p, n) && step.table !in Unready(SetupsOf(servers), p);
    ghost var astray := Astray(txns, p, n);
    e := PerformBeside(servers, txns, p, step, n);
    if e.None? {
      forall t | t in txns
        ensures AlongAt(txns[t], p, n + 1, t)
      {
        if t != step.table {
          assert t !in astray;
          Idle(txns[t], p, n, t);
        }
      }
    }
  }

  // ---- the whole transaction ----

  ghost predicate FailsIn(sus: map<Table, Setup>, rows: Server, steps: seq<Step>, i: nat)
    requires i < |steps|
  {
    var t := steps[i].table;
    t in rows && t in sus && StepFails(sus[t].ts, rows[t], steps, i)
  }

  /** One of the first `n` operations fails on what those before it make of its table. */
  ghost predicate SomeStepFails(sus: map<Table, Setup>, rows: Server, steps: seq<Step>, n: nat)
    requires n <= |steps|
  {
    exists i :: 0 <= i < n && FailsIn(sus, rows, steps, i)
  }

  lemma SomeStepFailsNext(sus: map<Table, Setup>, rows: Server, steps: seq<Step>, n: nat)
    requires n < |steps|
    ensures SomeStepFails(sus, rows, steps, n + 1) <==> SomeStepFails(sus, rows, steps, n) || FailsIn(sus, rows, steps, n)
  {
  }

  /** Every condition is of the right type. */
  ghost predicate AllProper(sus: map<Table, Setup>, steps: seq<Step>) {
    Improper(sus, steps) == {}
  }

  ghost function Improper(sus: map<Table, Setup>, steps: seq<Step>): set<int> {
    set i | 0 <= i < |steps| && steps[i].table in sus && !Proper(sus[steps[i].table].ts, steps[i].op)
  }

  /** What holds after `n` operations, or when one of them failed. */
  ghost predicate Performed(sus: map<Table, Setup>, txns: Txns, p: Plan, n: nat, proper: bool, e: Option<TxnError>)
    requires n <= |p.steps|
    reads *
  {
    && (e.None? ==> AllAlong(txns, p, n))
    && (p.planned && proper ==> (e.Some? <==> SomeStepFails(sus, p.rows, p.steps, n)))
  }

  method PerformNextStep(
    servers: Caches, txns: Txns, ghost p: Plan, steps: seq<Step>, n: nat, ghost proper: bool, ghost repr: set<object>)
    returns (e: Option<TxnError>)
    requires steps == p.steps && n < |steps| && txns.Keys == servers.Keys && Opened(servers, txns) && Owns(txns, repr)
    requires Sensible(SetupsOf(servers), p) && Performed(SetupsOf(servers), txns, p, n, proper, None)
    requires proper ==> AllProper(SetupsOf(servers), p.steps)
    modifies repr
    ensures Performed(SetupsOf(servers), txns, p, n + 1, proper, e)
  {
    assert SensibleStep(SetupsOf(servers), p.home, p.steps[n]);
    assert proper ==> n !in Improper(SetupsOf(servers), p.steps);
    e := PerformOn(servers, txns, p, steps[n], n);
    SomeStepFailsNext(SetupsOf(servers), p.rows, p.steps, n);
  }

  /** The loop over the operations, which stops at the first error. */
  method PerformAll(servers: Caches, txns: Txns, ghost p: Plan, steps: seq<Step>, ghost proper: bool, ghost repr: set<object>)
    returns (e: Option<TxnError>, n: nat)
    requires steps == p.steps && txns.Keys == servers.Keys && Opened(servers, txns) && Owns(txns, repr)
    requires Sensible(SetupsOf(servers), p) && Performed(SetupsOf(servers), txns, p, 0, proper, None)
    requires proper ==> AllProper(SetupsOf(servers), p.steps)
    modifies repr
    ensures n <= |steps| && (e.None? ==> n == |steps|)
    ensures Performed(SetupsOf(servers), txns, p, n, proper, e)
  {
    n := 0;
    while n < |steps|
      invariant n <= |steps| && Performed(SetupsOf(servers), txns, p, n, proper, None)
    {
      e := PerformNextStep(servers, txns, p, steps, n, proper, repr);
      n := n + 1;
      if e.Some? {
        return;
      }
    }
    e := None;
  }

  ghost function IndexesOf(servers: Caches): map<Table, Indexes>
    reads servers.Values
  {
    map t | t in servers :: servers[t].indexes
  }

  /** A transaction on the tables as they are. */
  ghost function PlanOf(servers: Caches, home: Uuid -> Table, steps: seq<Step>): Plan
    reads servers.Values
  {
    Plan(home, Contents(servers), IndexesOf(servers), steps, AllPlannable(servers, steps))
  }

  /** The queries of the operations can be answered through indexes. */
  ghost predicate AllPlannable(servers: Caches, steps: seq<Step>)
    reads servers.Values
  {
    Unplannable(servers, steps) == {}
  }

  ghost function Unplannable(servers: Caches, steps: seq<Step>): set<Table>
    reads servers.Values
  {
    set t | t in servers && !Plannable(servers[t].su, servers[t].cache, servers[t].indexes, OpsOn(steps, t))
  }

  /** What a transaction makes of one table, as far as the operations go: no immutable column is
      changed, references stay in order and, if queries can be answered through indexes, the rows
      are what the operations on the table make of them. */
  ghost predicate TableTransacted(su: Setup, p: Plan, t: Table, view: Rows) {
    && t in p.rows && AllTyped(su.ts, p.rows[t]) && AllPermitted(su.ts, p.rows[t], view) && Worlds.RowsOk(p.home, t, su.ts, view)
    && view.Keys <= p.rows[t].Keys + Inserted(OpsOn(p.steps, t))
    && (p.planned ==> view == AfterAll(su.ts, p.rows[t], OpsOn(p.steps, t)))
  }

  /** The tables that are not as a transaction makes them. */
  ghost function Untransacted(sus: map<Table, Setup>, p: Plan, views: Server): set<Table> {
    set t | t in views && !(t in sus && TableTransacted(sus[t], p, t, views[t]))
  }

  ghost predicate AllTransacted(sus: map<Table, Setup>, p: Plan, views: Server) {
    Untransacted(sus, p, views) == {}
  }

  lemma AlongToEnd(txn: Transaction, p: Plan, t: Table)
    requires AlongAt(txn, p, |p.steps|, t)
    ensures TableTransacted(txn.db.su, p, t, txn.View())
  {
    assert p.steps[..|p.steps|] == p.steps;
    assert OpsOn(p.steps, t)[..|OpsOn(p.steps, t)|] == OpsOn(p.steps, t);
  }

  lemma AllToEnd(servers: Caches, txns: Txns, p: Plan)
    requires txns.Keys == servers.Keys && Opened(servers, txns) && AllAlong(txns, p, |p.steps|)
    ensures AllTransacted(SetupsOf(servers), p, Views(txns))
  {
    forall t | t in txns
      ensures TableTransacted(servers[t].su, p, t, txns[t].View())
    {
      assert t !in Astray(txns, p, |p.steps|);
      AlongToEnd(txns[t], p, t);
    }
  }

  /** The updates of each table out of the sets accumulated for it. */
  function Gathered(all: map<Table, Updates>): Updates {
    map t | t in all && t in all[t] :: all[t][t]
  }

  lemma GatheredLeads(all: map<Table, Updates>, from: Server, to: Server)
    requires all.Keys == from.Keys && from.Keys == to.Keys && forall t :: t in all ==> Accumulated(all[t], t, from[t], to[t])
    ensures Worlds.LeadsTo(Gathered(all), from, to)
  {
    var us: Updates := Gathered(all);
    forall t: Table | t in us
      ensures us[t] != map[] && forall u: Uuid :: u in us[t] ==> us[t][u].row.Some?
    {
      assert Accumulated(all[t], t, from[t], to[t]);
    }
    forall t | t in from
      ensures Accumulated(us, t, from[t], to[t])
    {
      assert Accumulated(all[t], t, from[t], to[t]);
      forall u
        ensures Summarizes(Lookup(us, t, u), At(from[t], u), At(to[t], u))
      {
        assert Lookup(us, t, u) == Lookup(all[t], t, u);
      }
    }
  }

  lemma AlongAccumulated(txn: Transaction, p: Plan, n: nat, t: Table)
    requires AlongAt(txn, p, n, t) && txn.table == t
    ensures Accumulated(txn.updates.updates, t, p.rows[t], txn.View())
  {
  }

  function UpdatesIn(txns: Txns): map<Table, Updates>
    reads *
  {
    map t | t in txns :: txns[t].updates.updates
  }

  lemma AllAccumulated(servers: Caches, txns: Txns, p: Plan, n: nat)
    requires txns.Keys == servers.Keys && Opened(servers, txns) && AllAlong(txns, p, n) && p.rows.Keys == servers.Keys
    ensures Worlds.LeadsTo(Gathered(UpdatesIn(txns)), p.rows, Views(txns))
  {
    forall t | t in txns
      ensures Accumulated(txns[t].updates.updates, t, p.rows[t], txns[t].View())
    {
      assert t !in Astray(txns, p, n);
      AlongAccumulated(txns[t], p, n, t);
    }
    GatheredLeads(UpdatesIn(txns), p.rows, Views(txns));
  }

  lemma StartAt(txn: Transaction, p: Plan, t: Table)
    requires Untouched(txn) && t in p.rows && t in p.indexes && p.rows[t] == txn.db.cache && p.indexes[t] == txn.db.indexes
    requires Worlds.RowsOk(p.home, t, txn.db.su.ts, txn.db.cache)
    ensures AlongAt(txn, p, 0, t)
  {
    assert p.steps[..0] == [] && OpsOn(p.steps, t)[..0] == [];
  }

  lemma StartAlong(servers: Caches, txns: Txns, p: Plan)
    requires OpenedBut(servers, txns, {}) && PlannedFor(servers, p)
    ensures txns.Keys == servers.Keys && AllAlong(txns, p, 0)
  {
    forall t | t in txns
      ensures AlongAt(txns[t], p, 0, t)
    {
      assert t !in Worked(txns) && t !in OutOfOrder(servers, p.home);
      StartAt(txns[t], p, t);
    }
  }

  /** The tables with references out of order. */
  ghost function OutOfOrder(servers: Caches, home: Uuid -> Table): set<Table>
    reads servers.Values
  {
    set t | t in servers && !Worlds.RowsOk(home, t, servers[t].su.ts, servers[t].cache)
  }

  /** The plan is for the tables as they are, which are in order. */
  ghost predicate PlannedFor(servers: Caches, p: Plan)
    reads servers.Values
  {
    && p.rows == Contents(servers) && p.indexes == IndexesOf(servers)
    && OutOfOrder(servers, p.home) == {}
  }

  method Begin(servers: Caches, ghost p: Plan, ghost proper: bool) returns (txns: Txns, ghost repr: set<object>)
    requires ReadyCaches(servers) && PlannedFor(servers, p)
    ensures txns.Keys == servers.Keys && Opened(servers, txns) && fresh(repr) && Owns(txns, repr)
    ensures Performed(SetupsOf(servers), txns, p, 0, proper, None)
  {
    txns, repr := OpenAll(servers);
    StartAlong(servers, txns, p);
    assert !SomeStepFails(SetupsOf(servers), p.rows, p.steps, 0);
  }

  method Conclude(servers: Caches, txns: Txns, ghost p: Plan) returns (us: Updates, ghost views: Server)
    requires txns.Keys == servers.Keys && Opened(servers, txns) && AllAlong(txns, p, |p.steps|) && p.rows.Keys == servers.Keys
    ensures Worlds.LeadsTo(us, p.rows, views) && AllTransacted(SetupsOf(servers), p, views)
  {
    AllToEnd(servers, txns, p);
    AllAccumulated(servers, txns, p, |p.steps|);
    us := Gathered(UpdatesIn(txns));
    views := Views(txns);
  }

  /** `Transact`, as far as the operations go: the accumulated updates lead from the database to what
      the transaction sees.  When the queries can be answered through indexes it fails exactly when
      an operation fails on what those before it make of its table, and otherwise sees what the
      operations make of every table. */
  method Transact(servers: Caches, ghost p: Plan, steps: seq<Step>, ghost proper: bool)
    returns (us: Updates, e: Option<TxnError>, ghost views: Server)
    requires ReadyCaches(servers) && PlannedFor(servers, p) && Sensible(SetupsOf(servers), p) && steps == p.steps
    requires proper ==> AllProper(SetupsOf(servers), steps)
    ensures e.None? ==> Worlds.LeadsTo(us, p.rows, views) && AllTransacted(SetupsOf(servers), p, views)
    ensures p.planned && proper ==> (e.Some? <==> SomeStepFails(SetupsOf(servers), p.rows, steps, |steps|))
  {
    us, views := map[], map[];
    var txns, n;
    ghost var repr;
    txns, repr := Begin(servers, p, proper);
    e, n := PerformAll(servers, txns, p, steps, proper, repr);
    if e.Some? {
      if p.planned && proper {
        FailedStays(SetupsOf(servers), p.rows, steps, n);
      }
    } else {
      us, views := Conclude(servers, txns, p);
    }
  }

  lemma FailedStays(sus: map<Table, Setup>, rows: Server, steps: seq<Step>, n: nat)
    requires n <= |steps| && SomeStepFails(sus, rows, steps, n)
    ensures SomeStepFails(sus, rows, steps, |steps|)
  {
  }
}
