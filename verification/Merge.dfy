/** Row updates and how a chain of them on one row collapses into one (updates/merge.go). */
module Merge {
  import opened Values
  import opened Difference

  /** A row update of the update2 notification; `before` and `after` are the whole rows and
      never travel. */
  datatype RowUpdate2 = RowUpdate2(
    initial: Option<Row>,
    insert: Option<Row>,
    delta: Option<Row>,
    delete: Option<Row>,
    before: Option<Row>,
    after: Option<Row>)

  /** An update in model and in row notation. */
  datatype ModelUpdate = ModelUpdate(row: Option<RowUpdate2>, before: Option<Model>, after: Option<Model>)

  datatype MergeError = UnsupportedSequence

  const NO_UPDATE := ModelUpdate(None, None, None)

  /** The value a column had in the original row; an absent column is taken to hold the zero
      value of the type of the change. */
  function OriginalValue(o: Row, c: Column, like: Value): Value {
    if c in o then o[c] else ZeroLike(like)
  }

  function MergedAt(o: Row, a: Row, b: Row, c: Column): Option<Value> {
    if c !in b then At(a, c)
    else if c !in a then Some(b[c])
    else
      var (v, changed) := Compose(OriginalValue(o, c, b[c]), a[c], b[c]);
      if changed then Some(v) else None
  }

  /** The columns left when modification `b` is merged into `a` over original row `o`. */
  function MergedModify(o: Row, a: Row, b: Row): Row {
    map c | c in a.Keys + b.Keys && MergedAt(o, a, b, c).Some? :: MergedAt(o, a, b, c).value
  }

  function NonEmpty(r: Row): Option<Row> {
    if r == map[] then None else Some(r)
  }

  method MergeModifyRow(o: Row, a: Row, b: Row) returns (r: Option<Row>)
    ensures r == NonEmpty(MergedModify(o, a, b))
  {
    var aMod := a;
    var todo := b.Keys;
    while todo != {}
      invariant todo <= b.Keys
      invariant forall c :: At(aMod, c) == if c in todo then At(a, c) else MergedAt(o, a, b, c)
      decreases todo
    {
      var k :| k in todo;
      assert At(aMod, k) == At(a, k);
      todo := todo - {k};
      if k !in aMod {
        aMod := aMod[k := b[k]];
        continue;
      }
      var (result, changed) := Compose(OriginalValue(o, k, b[k]), aMod[k], b[k]);
      if !changed {
        aMod := aMod - {k};
        continue;
      }
      aMod := aMod[k := result];
    }
    SameLookups(aMod, MergedModify(o, a, b), o, a, b);
    r := NonEmpty(aMod);
  }

  lemma SameLookups(x: Row, y: Row, o: Row, a: Row, b: Row)
    requires y == MergedModify(o, a, b)
    requires forall c :: At(x, c) == MergedAt(o, a, b, c)
    ensures x == y
  {
    forall c
      ensures c in x <==> c in y
      ensures c in x ==> x[c] == y[c]
    {
      assert At(x, c) == MergedAt(o, a, b, c);
    }
  }

  function MergeRowUpdate(a: Option<RowUpdate2>, b: Option<RowUpdate2>): Result<Option<RowUpdate2>, MergeError> {
    if b.None? then Ok(a)
    else if a.None? then Ok(b)
    else
      var (x, y) := (a.value, b.value);
      if x.insert.Some? && y.delta.Some? then
        Ok(Some(x.(after := y.after, insert := y.after)))
      else if x.delta.Some? && y.delta.Some? then
        var original := if x.before.Some? then x.before.value else map[];
        var delta := NonEmpty(MergedModify(original, x.delta.value, y.delta.value));
        if delta.None? then Ok(None) else Ok(Some(x.(after := y.after, delta := delta)))
      else if x.insert.Some? && y.delete.Some? then
        Ok(None)
      else if y.delete.Some? then
        Ok(Some(x.(initial := None, insert := None, delta := None, after := None, delete := y.delete)))
      else
        Err(UnsupportedSequence)
  }

  function MergeModels(a: ModelUpdate, b: ModelUpdate): Result<(Option<Model>, Option<Model>), MergeError> {
    if b.before.None? && b.after.None? then Ok((a.before, a.after))
    else if a.before.None? && a.after.None? then Ok((b.before, b.after))
    else if a.after.Some? && b.before.Some? && b.after.Some? then Ok((a.before, b.after))
    else if b.before.Some? && b.after.None? then Ok((a.before, None))
    else Err(UnsupportedSequence)
  }

  /** Merge a later update `b` of a row into an earlier one `a`. */
  function MergeUpdate(a: ModelUpdate, b: ModelUpdate): Result<ModelUpdate, MergeError> {
    var models := MergeModels(a, b);
    if models.Err? then Err(models.error)
    else
      var row := MergeRowUpdate(a.row, b.row);
      if row.Err? then Err(row.error)
      else if row.value.None? then Ok(NO_UPDATE)
      else Ok(ModelUpdate(row.value, models.value.0, models.value.1))
  }

  // ---- what an update means ----

  function ApplyDelta(m: Model, d: Row): Model {
    map c | c in m :: if c in d then Apply(m[c], d[c]) else m[c]
  }

  /** `d` holds exactly the columns that change, each with an effective difference. */
  predicate Tight(o: Model, d: Row) {
    d.Keys <= o.Keys && forall c :: c in d ==> SameKind(o[c], d[c]) && Apply(o[c], d[c]) != o[c]
  }

  function InsertUpdate(n: Model): ModelUpdate {
    ModelUpdate(Some(RowUpdate2(None, Some(RowOf(n)), None, None, None, Some(RowOf(n)))), None, Some(n))
  }

  function ModifyUpdate(o: Model, d: Row, n: Model): ModelUpdate {
    ModelUpdate(Some(RowUpdate2(None, None, Some(d), None, Some(RowOf(o)), Some(RowOf(n)))), Some(o), Some(n))
  }

  function DeleteUpdate(o: Model): ModelUpdate {
    ModelUpdate(Some(RowUpdate2(None, None, None, Some(map[]), Some(RowOf(o)), None)), Some(o), None)
  }

  /** `u` is the one update that takes a row from `first` to `last`: nothing when they are the
      same, otherwise an insert, a delete, or a modification whose delta is non-empty, tight,
      and gives `last` when applied to `first`. */
  predicate Summarizes(u: ModelUpdate, first: Option<Model>, last: Option<Model>) {
    match (first, last)
    case (None, None) => u == NO_UPDATE
    case (None, Some(n)) => u == InsertUpdate(n)
    case (Some(o), None) => u == DeleteUpdate(o)
    case (Some(o), Some(n)) =>
      if o == n then u == NO_UPDATE
      else
        && u.row.Some? && u.row.value.delta.Some?
        && u == ModifyUpdate(o, u.row.value.delta.value, n)
        && Tight(o, u.row.value.delta.value)
        && ApplyDelta(o, u.row.value.delta.value) == n
  }

  lemma DeltaAt(o: Model, d: Row, n: Model, c: Column)
    requires Tight(o, d) && ApplyDelta(o, d) == n && c in o
    ensures c in n && n[c] == (if c in d then Apply(o[c], d[c]) else o[c])
    ensures c in d <==> n[c] != o[c]
    ensures SameKind(o[c], n[c])
  {
  }

  lemma NonEmptyDelta(o: Model, d: Row)
    requires Tight(o, d)
    ensures d == map[] <==> ApplyDelta(o, d) == o
  {
    if d != map[] {
      var c :| c in d;
      DeltaAt(o, d, ApplyDelta(o, d), c);
    }
  }

  lemma OriginalOfRow(o: Model, c: Column, like: Value)
    requires c in o && NormalValue(o[c]) && SameKind(o[c], like)
    requires o[c].AtomValue? ==> AtomTypeOf(o[c].a) == AtomTypeOf(like.a)
    ensures OriginalValue(RowOf(o), c, like) == o[c]
  {
  }

  /** A column keeps the type of its atoms when it holds a single atom. */
  predicate SameAtomTypes(o: Model, d: Row) {
    forall c :: c in o && c in d && o[c].AtomValue? && d[c].AtomValue? ==> AtomTypeOf(o[c].a) == AtomTypeOf(d[c].a)
  }

  /** One column of two merged modifications. */
  lemma MergedColumn(o: Model, a: Row, m: Model, b: Row, n: Model, c: Column)
    requires Normal(o) && SameAtomTypes(o, b)
    requires Tight(o, a) && ApplyDelta(o, a) == m
    requires Tight(m, b) && ApplyDelta(m, b) == n
    requires c in o
    ensures var d := MergedAt(RowOf(o), a, b, c);
            && (d.Some? <==> n[c] != o[c])
            && (d.Some? ==> SameKind(o[c], d.value) && Apply(o[c], d.value) == n[c])
  {
    DeltaAt(o, a, m, c);
    DeltaAt(m, b, n, c);
    if c in a && c in b {
      assert NormalValue(o[c]);
      OriginalOfRow(o, c, b[c]);
      ComposeCorrect(o[c], a[c], b[c]);
    }
  }

  lemma MergedDelta(o: Model, a: Row, m: Model, b: Row, n: Model)
    requires Normal(o) && SameAtomTypes(o, b)
    requires Tight(o, a) && ApplyDelta(o, a) == m
    requires Tight(m, b) && ApplyDelta(m, b) == n
    ensures var d := MergedModify(RowOf(o), a, b);
            Tight(o, d) && ApplyDelta(o, d) == n
  {
    var d := MergedModify(RowOf(o), a, b);
    forall c | c in d
      ensures c in o && SameKind(o[c], d[c]) && Apply(o[c], d[c]) != o[c]
    {
      MergedColumn(o, a, m, b, n, c);
    }
    forall c | c in o
      ensures c in n && ApplyDelta(o, d)[c] == n[c]
    {
      MergedColumn(o, a, m, b, n, c);
      assert c in m;
      assert c in d <==> MergedAt(RowOf(o), a, b, c).Some?;
    }
  }

  /** Models of the same table: same columns, and single atoms of the same type. */
  predicate Alike(o: Model, n: Model) {
    o.Keys == n.Keys &&
    forall c :: c in o && c in n && o[c].AtomValue? && n[c].AtomValue? ==> AtomTypeOf(o[c].a) == AtomTypeOf(n[c].a)
  }

  lemma AlikeDelta(o: Model, m: Model, b: Row, n: Model)
    requires Alike(o, n) && Tight(m, b) && ApplyDelta(m, b) == n
    ensures SameAtomTypes(o, b)
  {
    forall c | c in o && c in b && o[c].AtomValue? && b[c].AtomValue?
      ensures AtomTypeOf(o[c].a) == AtomTypeOf(b[c].a)
    {
      DeltaAt(m, b, n, c);
      assert n[c] == b[c];
    }
  }

  /** One more update on a row: the merge is refused exactly when it inserts a row that was
      deleted earlier, and otherwise summarizes the whole change. */
  lemma MergeStep(acc: ModelUpdate, first: Option<Model>, current: Option<Model>, b: ModelUpdate, last: Option<Model>)
    requires Summarizes(acc, first, current) && Summarizes(b, current, last)
    requires first.Some? ==> Normal(first.value)
    requires first.Some? && last.Some? ==> Alike(first.value, last.value)
    ensures MergeUpdate(acc, b).Err? <==> first.Some? && current.None? && last.Some?
    ensures MergeUpdate(acc, b).Ok? ==> Summarizes(MergeUpdate(acc, b).value, first, last)
  {
    if first.Some? && current.Some? && last.Some? && first != current && current != last {
      var (o, m, n) := (first.value, current.value, last.value);
      var (da, db) := (acc.row.value.delta.value, b.row.value.delta.value);
      AlikeDelta(o, m, db, n);
      MergedDelta(o, da, m, db, n);
      NonEmptyDelta(o, MergedModify(RowOf(o), da, db));
    }
  }

  // ---- chains ----

  /** The updates of one row merged in order. */
  function MergeAll(us: seq<ModelUpdate>): Result<ModelUpdate, MergeError> {
    if us == [] then Ok(NO_UPDATE)
    else
      var earlier := MergeAll(us[..|us| - 1]);
      if earlier.Err? then earlier else MergeUpdate(earlier.value, us[|us| - 1])
  }

  /** Each update starts from the state in which the previous one left the row. */
  predicate Chained(us: seq<ModelUpdate>, states: seq<Option<Model>>) {
    && |states| == |us| + 1
    && (forall i :: 0 <= i < |us| ==> Summarizes(us[i], states[i], states[i + 1]))
    && (forall i, j :: 0 <= i < j < |states| && states[i].Some? && states[j].Some? ==> Alike(states[i].value, states[j].value))
  }

  /** A row that existed at first is inserted again after its deletion. */
  predicate Revives(states: seq<Option<Model>>) {
    |states| > 0 && states[0].Some? && exists i :: 0 < i < |states| && states[i - 1].None? && states[i].Some?
  }

  /** Chain collapse: merging any chain of updates on a row gives the one update from its
      first to its last state, and fails exactly when the chain brings a deleted row back. */
  lemma {:induction false} ChainCollapse(us: seq<ModelUpdate>, states: seq<Option<Model>>)
    requires Chained(us, states)
    requires states[0].Some? ==> Normal(states[0].value)
    ensures MergeAll(us).Err? <==> Revives(states)
    ensures MergeAll(us).Ok? ==> Summarizes(MergeAll(us).value, states[0], states[|us|])
  {
    if us == [] {
    } else {
      var n := |us|;
      ChainPrefix(us, states);
      ChainCollapse(us[..n - 1], states[..n]);
      RevivesSplit(states);
      assert states[..n][n - 1] == states[n - 1];
      if MergeAll(us[..n - 1]).Ok? {
        MergeStep(MergeAll(us[..n - 1]).value, states[0], states[n - 1], us[n - 1], states[n]);
      }
    }
  }

  lemma ChainPrefix(us: seq<ModelUpdate>, states: seq<Option<Model>>)
    requires Chained(us, states) && us != []
    ensures Chained(us[..|us| - 1], states[..|us|])
    ensures Summarizes(us[|us| - 1], states[|us| - 1], states[|us|])
    ensures states[0].Some? && states[|us|].Some? ==> Alike(states[0].value, states[|us|].value)
  {
    var (us', states') := (us[..|us| - 1], states[..|us|]);
    forall i | 0 <= i < |us'|
      ensures Summarizes(us'[i], states'[i], states'[i + 1])
    {
      assert Summarizes(us[i], states[i], states[i + 1]);
    }
  }

  lemma RevivesSplit(states: seq<Option<Model>>)
    requires |states| >= 2
    ensures var n := |states| - 1;
            Revives(states) <==>
            Revives(states[..n]) || (states[0].Some? && states[n - 1].None? && states[n].Some?)
  {
    var n := |states| - 1;
    if Revives(states) {
      var i :| 0 < i < |states| && states[i - 1].None? && states[i].Some?;
      assert i < n ==> states[..n][i - 1].None? && states[..n][i].Some?;
    }
    if Revives(states[..n]) {
      var i :| 0 < i < n && states[..n][i - 1].None? && states[..n][i].Some?;
      assert states[i - 1].None? && states[i].Some?;
    }
  }

  /** Insert-then-delete disappears, and a chain over an existing row disappears exactly when
      the row is back at its original value. */
  lemma ChainDisappears(us: seq<ModelUpdate>, states: seq<Option<Model>>)
    requires Chained(us, states) && !Revives(states)
    requires states[0].Some? ==> Normal(states[0].value)
    ensures MergeAll(us) == Ok(NO_UPDATE) <==> states[0] == states[|us|]
  {
    ChainCollapse(us, states);
  }

  /** The chain of updates on `m` is merged into the update between its ends. */
  predicate Collapses(us: seq<ModelUpdate>, states: seq<Option<Model>>) {
    |states| > 0 && MergeAll(us).Ok? && Summarizes(MergeAll(us).value, states[0], states[|states| - 1])
  }

  /** Setting one single-atom column. */
  function SetAtom(m: Model, c: Column, a: Atom): ModelUpdate {
    ModifyUpdate(m, map[c := AtomValue(a)], m[c := AtomValue(a)])
  }

  lemma SetAtomSummarizes(m: Model, c: Column, a: Atom)
    requires c in m && m[c].AtomValue? && m[c].a != a
    ensures Summarizes(SetAtom(m, c, a), Some(m), Some(m[c := AtomValue(a)]))
  {
    var d := map[c := AtomValue(a)];
    assert ApplyDelta(m, d) == m[c := AtomValue(a)];
    assert m[c := AtomValue(a)][c] != m[c];
  }

  /** Collapse is guaranteed for exactly the rows that hold no all-zero UUID: the row of such a
      value leaves the column out, and the merge then takes the original to have been the
      empty UUID. */
  lemma CollapseNeedsNormal(m: Model)
    ensures Normal(m) <==>
      forall us, states :: Chained(us, states) && !Revives(states) && states[0] == Some(m) ==> Collapses(us, states)
  {
    if Normal(m) {
      forall us, states | Chained(us, states) && !Revives(states) && states[0] == Some(m)
        ensures Collapses(us, states)
      {
        ChainCollapse(us, states);
      }
    } else {
      var c :| c in m && !NormalValue(m[c]);
      var us, states := UncollapsedChain(m, c);
    }
  }

  /** Setting an all-zero UUID to another value and back. */
  lemma UncollapsedChain(m: Model, c: Column) returns (us: seq<ModelUpdate>, states: seq<Option<Model>>)
    requires c in m && !NormalValue(m[c])
    ensures Chained(us, states) && !Revives(states) && states[0] == Some(m) && !Collapses(us, states)
  {
    assert m[c] == AtomValue(UuidAtom(NIL_UUID));
    var other := m[c := AtomValue(UuidAtom("x"))];
    us := [SetAtom(m, c, UuidAtom("x")), SetAtom(other, c, UuidAtom(NIL_UUID))];
    states := [Some(m), Some(other), Some(m)];
    SetAtomSummarizes(m, c, UuidAtom("x"));
    SetAtomSummarizes(other, c, UuidAtom(NIL_UUID));
    assert other[c := AtomValue(UuidAtom(NIL_UUID))] == m;
    assert Chained(us, states) && !Revives(states);
    NilUuidChain(m, c, us);
  }

  lemma NilUuidChain(m: Model, c: Column, us: seq<ModelUpdate>)
    requires c in m && m[c] == AtomValue(UuidAtom(NIL_UUID))
    requires us == [SetAtom(m, c, UuidAtom("x")), SetAtom(m[c := AtomValue(UuidAtom("x"))], c, UuidAtom(NIL_UUID))]
    ensures MergeAll(us).Ok? && MergeAll(us).value != NO_UPDATE
  {
    assert us[..1] == [us[0]] && us[..1][..0] == [];
    assert MergeAll(us[..1]) == Ok(us[0]);
    var (a, b) := (us[0].row.value.delta.value, us[1].row.value.delta.value);
    assert MergedAt(RowOf(m), a, b, c) == Some(AtomValue(UuidAtom(NIL_UUID)));
    assert c in MergedModify(RowOf(m), a, b);
  }
}
