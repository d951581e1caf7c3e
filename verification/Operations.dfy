/** Turning operations and notifications on one row into updates (updates/updates.go). */
module Operations {
  import opened Values
  import opened Difference
  import opened Merge
  import opened Mutations

  datatype OpError = WrongType | NotMutable | InvalidMutation | DivisionByZero

  // ---- mutate ----

  /** `mergeDifference` with nil for a difference that is not there. */
  function MergeDifference(o: Value, a: Option<Value>, b: Option<Value>): (Option<Value>, bool) {
    match (a, b)
    case (None, None) => (None, false)
    case (None, Some(y)) =>
      (b, if y.SetValue? then y.s != {} else if y.MapValue? then y.m != map[] else o != y)
    case (Some(x), None) =>
      if x.SetValue? then (a, x.s != {}) else if x.MapValue? then (a, x.m != map[]) else (None, true)
    case (Some(x), Some(y)) =>
      var (v, changed) := Compose(o, x, y);
      (Some(v), changed)
  }

  /** `d` is the difference between `o` and `n`, None standing for no change. */
  predicate Accounts(o: Value, d: Option<Value>, n: Value) {
    if d.None? then n == o else SameKind(o, d.value) && Apply(o, d.value) == n && n != o
  }

  lemma MergeDifferenceCorrect(o: Value, a: Option<Value>, current: Value, b: Option<Value>, n: Value)
    requires Accounts(o, a, current)
    requires b.None? ==> n == current && !current.AtomValue? && !current.OptValue?
    requires b.Some? ==> SameKind(current, b.value) && Apply(current, b.value) == n
    ensures var (d, changed) := MergeDifference(o, a, b);
            if changed then d.Some? && Accounts(o, d, n) else n == o
  {
    match (a, b)
    case (None, None) =>
    case (None, Some(y)) => ApplyFlagExact(o, y);
    case (Some(x), None) => ApplyFlagExact(o, x);
    case (Some(x), Some(y)) => ComposeCorrect(o, x, y);
  }

  function MutateColumn(ts: TableSchema, m: Model, mu: Mutation): Result<Model, OpError>
    requires TypedModel(ts, m)
  {
    if mu.column !in ts then Ok(m)
    else if !ValidMutation(ts[mu.column], mu.mutator, mu.value) then Err(InvalidMutation)
    else if mu.value.AtomValue? && DividesByZero(mu.mutator, mu.value.a) then Err(DivisionByZero)
    else Ok(m[mu.column := Mutate(m[mu.column], mu.mutator, mu.value).0])
  }

  lemma MutateColumnTyped(ts: TableSchema, m: Model, mu: Mutation)
    requires TypedModel(ts, m)
    ensures MutateColumn(ts, m, mu).Ok? ==> TypedModel(ts, MutateColumn(ts, m, mu).value)
  {
    if MutateColumn(ts, m, mu).Ok? && mu.column in ts {
      MutateDifference(ts[mu.column], m[mu.column], mu.mutator, mu.value);
    }
  }

  /** The row after a list of mutations, or the first error. */
  function MutateAll(ts: TableSchema, m: Model, mus: seq<Mutation>): (r: Result<Model, OpError>)
    requires TypedModel(ts, m)
    ensures r.Ok? ==> TypedModel(ts, r.value)
    decreases |mus|
  {
    if mus == [] then Ok(m)
    else
      var earlier := MutateAll(ts, m, mus[..|mus| - 1]);
      if earlier.Err? then earlier
      else
        MutateColumnTyped(ts, earlier.value, mus[|mus| - 1]);
        MutateColumn(ts, earlier.value, mus[|mus| - 1])
  }

  lemma MutateAllErr(ts: TableSchema, m: Model, mus: seq<Mutation>, i: nat)
    requires TypedModel(ts, m) && i <= |mus| && MutateAll(ts, m, mus[..i]).Err?
    ensures MutateAll(ts, m, mus) == MutateAll(ts, m, mus[..i])
    decreases |mus| - i
  {
    if i == |mus| {
      assert mus[..i] == mus;
    } else {
      assert mus[..i + 1][..i] == mus[..i];
      MutateAllErr(ts, m, mus, i + 1);
    }
  }

  predicate DeltaSoFar(ts: TableSchema, o: Model, d: Row, n: Model)
    requires TypedModel(ts, o) && TypedModel(ts, n)
  {
    d.Keys <= o.Keys && forall c :: c in o ==> Accounts(o[c], At(d, c), n[c])
  }

  lemma DeltaSoFarMeans(ts: TableSchema, o: Model, d: Row, n: Model)
    requires TypedModel(ts, o) && TypedModel(ts, n) && DeltaSoFar(ts, o, d, n)
    ensures Tight(o, d) && ApplyDelta(o, d) == n
    ensures d == map[] <==> o == n
  {
    forall c | c in o
      ensures n[c] == if c in d then Apply(o[c], d[c]) else o[c]
      ensures c in d ==> SameKind(o[c], d[c]) && Apply(o[c], d[c]) != o[c]
    {
      assert Accounts(o[c], At(d, c), n[c]);
    }
    assert ApplyDelta(o, d) == n;
    NonEmptyDelta(o, d);
  }

  /** Changing one column and its entry in the delta. */
  lemma DeltaStep(ts: TableSchema, o: Model, d: Row, n: Model, c: Column, v: Value, d': Row)
    requires TypedModel(ts, o) && TypedModel(ts, n) && DeltaSoFar(ts, o, d, n)
    requires c in ts && HasKind(v, ts[c].kind)
    requires d' == d - {c} || (c in d' && d' == d[c := d'[c]])
    requires Accounts(o[c], At(d', c), v)
    ensures TypedModel(ts, n[c := v]) && DeltaSoFar(ts, o, d', n[c := v])
  {
    forall c' | c' in o
      ensures Accounts(o[c'], At(d', c'), n[c := v][c'])
    {
      assert Accounts(o[c'], At(d, c'), n[c']);
    }
  }

  /** One mutation of a known column: its difference is merged into the accumulated one. */
  method MutateStep(ts: TableSchema, current: Model, mutated: Model, differences: Row, mu: Mutation)
    returns (mutated': Model, differences': Row)
    requires TypedModel(ts, current) && TypedModel(ts, mutated) && DeltaSoFar(ts, current, differences, mutated)
    requires mu.column in ts && MutateColumn(ts, mutated, mu).Ok?
    ensures MutateColumn(ts, mutated, mu) == Ok(mutated') && TypedModel(ts, mutated')
    ensures DeltaSoFar(ts, current, differences', mutated')
  {
    var c := mu.column;
    var (v, diff) := Mutate(mutated[c], mu.mutator, mu.value);
    MutateDifference(ts[c], mutated[c], mu.mutator, mu.value);
    assert Accounts(current[c], At(differences, c), mutated[c]);
    MergeDifferenceCorrect(current[c], At(differences, c), mutated[c], diff, v);
    var (d, changed) := MergeDifference(current[c], At(differences, c), diff);
    if changed {
      differences' := differences[c := d.value];
    } else {
      differences' := differences - {c};
    }
    mutated' := mutated[c := v];
    DeltaStep(ts, current, differences, mutated, c, v, differences');
  }

  /** Mutation accumulation: the differences of any list of mutations, accumulated column by
      column, make up the one update from the old row to the mutated row; a column whose net
      change is nothing is left out of it. */
  method MutateOperation(ts: TableSchema, current: Model, mus: seq<Mutation>) returns (r: Result<ModelUpdate, OpError>)
    requires TypedModel(ts, current)
    ensures r.Err? <==> MutateAll(ts, current, mus).Err?
    ensures r.Ok? ==> Summarizes(r.value, Some(current), Some(MutateAll(ts, current, mus).value))
  {
    var mutated := current;
    var differences: Row := map[];
    for i := 0 to |mus|
      invariant TypedModel(ts, mutated)
      invariant MutateAll(ts, current, mus[..i]) == Ok(mutated)
      invariant DeltaSoFar(ts, current, differences, mutated)
    {
      var mu := mus[i];
      assert mus[..i + 1][..i] == mus[..i];
      var next := MutateColumn(ts, mutated, mu);
      if next.Err? {
        MutateAllErr(ts, current, mus, i + 1);
        return Err(next.error);
      }
      if mu.column in ts {
        mutated, differences := MutateStep(ts, current, mutated, differences, mu);
      }
    }
    assert mus[..|mus|] == mus;
    DeltaSoFarMeans(ts, current, differences, mutated);
    r := Ok(if differences == map[] then NO_UPDATE else ModifyUpdate(current, differences, mutated));
  }

  // ---- update and modify ----

  /** The value a changed column takes, when the change is an update or a modification. */
  function ChangedValue(v: Value, change: Value, isModify: bool): Value {
    if isModify then Apply(v, change) else change
  }

  /** The row a change row leads to; columns the schema does not know are ignored. */
  function Changed(ts: TableSchema, m: Model, change: Row, isModify: bool): Model
    requires TypedModel(ts, m)
  {
    map c | c in m :: if c in change then ChangedValue(m[c], change[c], isModify) else m[c]
  }

  /** The columns for which a change row is refused. */
  predicate Refused(ts: TableSchema, m: Model, change: Row, isModify: bool, c: Column)
    requires TypedModel(ts, m)
  {
    c in change && c in ts &&
    (!HasKind(change[c], ts[c].kind) || (!ts[c].mutable && ChangedValue(m[c], change[c], isModify) != m[c]))
  }

  lemma ApplyKeepsKind(v: Value, d: Value, k: Kind)
    requires HasKind(v, k) && HasKind(d, k)
    ensures SameKind(v, d) && HasKind(Apply(v, d), k)
  {
  }

  /** One column of a change row: its new value, its difference, and whether it differs. */
  method ChangeColumn(cs: ColumnSchema, v: Value, change: Value, isModify: bool)
    returns (n: Value, d: Value, different: bool)
    requires HasKind(v, cs.kind) && HasKind(change, cs.kind)
    ensures n == ChangedValue(v, change, isModify) && HasKind(n, cs.kind)
    ensures different <==> n != v
    ensures !isModify && different ==> Accounts(v, Some(d), n)
  {
    ApplyKeepsKind(v, change, cs.kind);
    if isModify {
      ApplyFlagExact(v, change);
      var applied := ApplyDifference(v, change);
      d, different := applied.0, applied.1;
      n := d;
    } else {
      DifferFlag(v, change);
      ApplyTwice(v, change);
      var difference := Differ(v, change);
      d, different := difference.0, difference.1;
      n := change;
    }
  }

  lemma SoFar(ts: TableSchema, m: Model, change: Row, isModify: bool, todo: set<Column>, n: Model, c: Column, v: Value)
    requires TypedModel(ts, m) && TypedModel(ts, n) && c in ts && c in change && c in todo
    requires n == Changed(ts, m, change - todo, isModify)
    requires v == ChangedValue(m[c], change[c], isModify) && HasKind(v, ts[c].kind)
    ensures n[c := v] == Changed(ts, m, change - (todo - {c}), isModify) && TypedModel(ts, n[c := v])
    ensures n[c] == m[c]
    ensures n[c := v] != m <==> n != m || v != m[c]
  {
    if n[c := v] == m {
      assert n[c := v][c] == m[c];
    }
    if n != m {
      var c' :| c' in m && n[c'] != m[c'];
      assert n[c := v][c'] != m[c'];
    }
  }

  /** `updateOrModifyModel`: the change is refused exactly when a column has a value of the
      wrong type or changes although it is immutable; otherwise the new row is the changed
      one, the flag tells whether it differs, and for an update the collected delta is the
      tight difference of the two rows. */
  method UpdateOrModifyModel(ts: TableSchema, m: Model, change: Row, isModify: bool)
    returns (r: Result<(bool, Model, Row), OpError>)
    requires TypedModel(ts, m)
    ensures r.Err? <==> exists c :: Refused(ts, m, change, isModify, c)
    ensures r.Ok? ==> r.value.1 == Changed(ts, m, change, isModify) && TypedModel(ts, r.value.1)
    ensures r.Ok? ==> (r.value.0 <==> r.value.1 != m)
    ensures r.Ok? && !isModify ==> DeltaSoFar(ts, m, r.value.2, r.value.1)
  {
    var changed, n, delta: Row := false, m, map[];
    var todo := change.Keys;
    assert change - todo == map[];
    while todo != {}
      invariant todo <= change.Keys
      invariant Progress(ts, m, change, isModify, todo, changed, n, delta)
      decreases todo
    {
      var c :| c in todo;
      if c in ts {
        var e;
        e, changed, n, delta := ChangeStep(ts, m, change, isModify, todo, changed, n, delta, c);
        if e.Some? {
          return Err(e.value);
        }
      } else {
        SkipStep(ts, m, change, isModify, todo, changed, n, delta, c);
      }
      todo := todo - {c};
    }
    assert change - todo == change;
    assert forall c :: !Refused(ts, m, change, isModify, c);
    r := Ok((changed, n, delta));
  }

  /** What holds while the columns of `todo` are still to be handled. */
  ghost predicate Progress(
    ts: TableSchema, m: Model, change: Row, isModify: bool, todo: set<Column>, changed: bool, n: Model, delta: Row)
  {
    && TypedModel(ts, m) && TypedModel(ts, n)
    && n == Changed(ts, m, change - todo, isModify)
    && (forall c :: c in change && c !in todo ==> !Refused(ts, m, change, isModify, c))
    && (changed <==> n != m)
    && (!isModify ==> DeltaSoFar(ts, m, delta, n) && delta.Keys !! todo)
  }

  lemma SkipStep(
    ts: TableSchema, m: Model, change: Row, isModify: bool, todo: set<Column>, changed: bool, n: Model, delta: Row,
    c: Column)
    requires Progress(ts, m, change, isModify, todo, changed, n, delta) && c in todo && c !in ts
    ensures Progress(ts, m, change, isModify, todo - {c}, changed, n, delta)
  {
    assert n == Changed(ts, m, change - (todo - {c}), isModify);
  }

  method ChangeStep(
    ts: TableSchema, m: Model, change: Row, isModify: bool, todo: set<Column>, changed: bool, n: Model, delta: Row,
    c: Column)
    returns (e: Option<OpError>, changed': bool, n': Model, delta': Row)
    requires Progress(ts, m, change, isModify, todo, changed, n, delta)
    requires c in todo && c in ts && todo <= change.Keys
    ensures e.Some? ==> Refused(ts, m, change, isModify, c)
    ensures e.None? ==> Progress(ts, m, change, isModify, todo - {c}, changed', n', delta')
  {
    e, changed', n', delta' := None, changed, n, delta;
    if !HasKind(change[c], ts[c].kind) {
      e := Some(WrongType);
      return;
    }
    var v, d, different := ChangeColumn(ts[c], n[c], change[c], isModify);
    SoFar(ts, m, change, isModify, todo, n, c, v);
    if different && !ts[c].mutable {
      e := Some(NotMutable);
      return;
    }
    changed' := changed || different;
    if !isModify {
      delta' := if different then delta[c := d] else delta;
      assert delta - {c} == delta;
      DeltaStep(ts, m, delta, n, c, v, delta');
    }
    n' := n[c := v];
  }

  /** Update operation on a row: it is refused exactly when a known column of the change row has the
      wrong type or is immutable and would change; otherwise the row has the values of the change
      row, and its old ones elsewhere. */
  method UpdateOperation(ts: TableSchema, current: Model, row: Row) returns (r: Result<ModelUpdate, OpError>)
    requires TypedModel(ts, current)
    ensures r.Err? <==> exists c :: Refused(ts, current, row, false, c)
    ensures r.Ok? ==> Summarizes(r.value, Some(current), Some(Changed(ts, current, row, false)))
    ensures r.Err? <==>
      exists c :: c in row && c in ts && (!HasKind(row[c], ts[c].kind) || (!ts[c].mutable && row[c] != current[c]))
    ensures r.Ok? ==> (r.value == NO_UPDATE <==> forall c :: c in current && c in row ==> row[c] == current[c])
    ensures r.Ok? && r.value != NO_UPDATE ==> r.value.after.Some? && r.value.after.value.Keys == current.Keys
    ensures r.Ok? && r.value != NO_UPDATE ==>
      forall c :: c in current ==> r.value.after.value[c] == if c in row then row[c] else current[c]
  {
    UpdateRefused(ts, current, row);
    var result := UpdateOrModifyModel(ts, current, row, false);
    if result.Err? {
      return Err(result.error);
    }
    var (changed, n, delta) := result.value;
    DeltaSoFarMeans(ts, current, delta, n);
    r := Ok(if changed then ModifyUpdate(current, delta, n) else NO_UPDATE);
  }

  lemma UpdateRefused(ts: TableSchema, m: Model, row: Row)
    requires TypedModel(ts, m)
    ensures (exists c :: Refused(ts, m, row, false, c)) <==>
      exists c :: c in row && c in ts && (!HasKind(row[c], ts[c].kind) || (!ts[c].mutable && row[c] != m[c]))
  {
    if c :| Refused(ts, m, row, false, c) {
      assert c in row && c in ts && (!HasKind(row[c], ts[c].kind) || (!ts[c].mutable && row[c] != m[c]));
    }
    if c :| c in row && c in ts && (!HasKind(row[c], ts[c].kind) || (!ts[c].mutable && row[c] != m[c])) {
      assert Refused(ts, m, row, false, c);
    }
  }

  predicate TypedRow(ts: TableSchema, row: Row) {
    forall c :: c in row && c in ts ==> HasKind(row[c], ts[c].kind)
  }

  /** Insert operation: the new row holds the given values and zero values elsewhere. */
  function InsertOperation(ts: TableSchema, row: Row): (r: Result<ModelUpdate, OpError>)
    ensures r.Err? <==> !TypedRow(ts, row)
    ensures r.Ok? ==> TypedModel(ts, ModelOf(ts, row)) && Summarizes(r.value, None, Some(ModelOf(ts, row)))
  {
    if TypedRow(ts, row) then Ok(InsertUpdate(ModelOf(ts, row))) else Err(WrongType)
  }

  // ---- notifications ----

  /** `AddRowUpdate2`: the update a replica makes of a notification about a row it holds as
      `current`. */
  method AddRowUpdate2(ts: TableSchema, current: Option<Model>, ru: RowUpdate2)
    returns (r: Result<ModelUpdate, OpError>)
    requires current.Some? ==> TypedModel(ts, current.value)
    requires ru.initial.None? && ru.insert.None? ==> current.Some?
    ensures var insert := if ru.initial.Some? then ru.initial else ru.insert;
      match insert
      case Some(row) =>
        (r.Err? <==> !TypedRow(ts, row)) &&
        (r.Ok? ==> r.value.before == None && r.value.after == Some(ModelOf(ts, row)))
      case None =>
        if ru.delta.Some? then
          (r.Err? <==> exists c :: Refused(ts, current.value, ru.delta.value, true, c)) &&
          (r.Ok? ==>
             var n := Changed(ts, current.value, ru.delta.value, true);
             if n == current.value then r.value == NO_UPDATE
             else r.value.before == current && r.value.after == Some(n))
        else r.Ok? && r.value.before == current && r.value.after == None
  {
    var ru2 := ru;
    if ru2.initial.Some? {
      ru2 := ru2.(insert := ru2.initial);
    }
    if ru2.insert.Some? {
      if !TypedRow(ts, ru2.insert.value) {
        return Err(WrongType);
      }
      return Ok(ModelUpdate(Some(ru2), None, Some(ModelOf(ts, ru2.insert.value))));
    }
    if ru2.delta.Some? {
      var result := UpdateOrModifyModel(ts, current.value, ru2.delta.value, true);
      if result.Err? {
        return Err(result.error);
      }
      if !result.value.0 {
        return Ok(NO_UPDATE);
      }
      return Ok(ModelUpdate(Some(ru2), current, Some(result.value.1)));
    }
    return Ok(ModelUpdate(Some(ru2), current, None));
  }
}
