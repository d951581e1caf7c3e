/** The updates of a transaction, by table and row (updates/updates.go). */
module ModelUpdates {
  import opened Values
  import opened Merge

  type Updates = map<Table, map<Uuid, ModelUpdate>>

  /** The update of a row, or no update. */
  function Lookup(us: Updates, t: Table, u: Uuid): ModelUpdate {
    if t in us && u in us[t] then us[t][u] else NO_UPDATE
  }

  /** No empty entry is kept, and every entry is an update in both notations. */
  predicate Pruned(us: Updates) {
    && (forall t :: t in us ==> us[t] != map[])
    && (forall t, u :: t in us && u in us[t] ==> us[t][u].row.Some?)
  }

  /** A pruned set of updates has tables exactly when some row has an update. */
  lemma PrunedSize(us: Updates)
    requires Pruned(us)
    ensures us != map[] <==> exists t, u :: Lookup(us, t, u) != NO_UPDATE
  {
    if us != map[] {
      var t :| t in us;
      assert us[t] != map[];
      var u :| u in us[t];
      assert Lookup(us, t, u).row.Some?;
    }
  }

  class UpdateSet {
    var updates: Updates

    constructor ()
      ensures updates == map[]
    {
      updates := map[];
    }

    /** Merge one update into the set; an update that amounts to nothing is dropped together
        with the entries it leaves empty. */
    method AddUpdate(t: Table, u: Uuid, update: ModelUpdate) returns (e: Option<MergeError>)
      requires Pruned(updates)
      modifies this
      ensures e.Some? <==> MergeUpdate(Lookup(old(updates), t, u), update).Err?
      ensures e.None? ==> Pruned(updates)
      ensures e.None? ==> MergeUpdate(Lookup(old(updates), t, u), update) == Ok(Lookup(updates, t, u))
      ensures OthersKept(old(updates), updates, t, u)
    {
      ghost var before := updates;
      if t !in updates {
        updates := updates[t := map[]];
      }
      WithEntry(before, updates, t, u);
      var merged := MergeUpdate(if u in updates[t] then updates[t][u] else NO_UPDATE, update);
      if merged.Err? {
        return Some(merged.error);
      }
      MergedHasRow(Lookup(before, t, u), update);
      if merged.value != NO_UPDATE {
        Written(before, updates, t, u, merged.value);
        updates := updates[t := updates[t][u := merged.value]];
        return None;
      }
      Dropped(before, t, u);
      updates := updates[t := updates[t] - {u}];
      if |updates[t]| == 0 {
        updates := updates - {t};
      }
      return None;
    }

    /** Merge the later updates of one table. */
    method MergeTable(t: Table, later: map<Uuid, ModelUpdate>) returns (e: Option<MergeError>)
      requires Pruned(updates)
      modifies this
      ensures e.Some? ==> exists u :: u in later && MergeUpdate(Lookup(old(updates), t, u), later[u]).Err?
      ensures e.None? ==> Pruned(updates) && Merged(old(updates), map[t := later], updates)
    {
      ghost var before := updates;
      var rows := later.Keys;
      NothingMerged(before, map[t := later - rows]);
      while rows != {}
        invariant rows <= later.Keys
        invariant Pruned(before) && Pruned(updates)
        invariant Merged(before, map[t := later - rows], updates)
        decreases rows
      {
        var u :| u in rows;
        ghost var between := updates;
        assert RowMerged(before, map[t := later - rows], between, t, u);
        MergeNothing(before, t, u);
        e := AddUpdate(t, u, later[u]);
        if e.Some? {
          return;
        }
        OneMerged(between, t, u, later[u], updates);
        MergedInTurn(before, map[t := later - rows], between, map[t := map[u := later[u]]], updates,
                     map[t := later - (rows - {u})]);
        rows := rows - {u};
      }
      assert later - rows == later;
      e := None;
    }

    /** Merge a later set of updates: afterwards each row's update is the merge of its two
        updates. */
    method MergeSet(later: Updates) returns (e: Option<MergeError>)
      requires Pruned(updates) && Pruned(later)
      modifies this
      ensures e.Some? <==> exists t, u :: MergeUpdate(Lookup(old(updates), t, u), Lookup(later, t, u)).Err?
      ensures e.None? ==> Pruned(updates) && Merged(old(updates), later, updates)
    {
      ghost var before := updates;
      var tables := later.Keys;
      assert later - tables == map[];
      NothingMerged(before, map[]);
      while tables != {}
        invariant tables <= later.Keys
        invariant Pruned(before) && Pruned(updates)
        invariant Merged(before, later - tables, updates)
        decreases tables
      {
        var t :| t in tables;
        ghost var between := updates;
        e := MergeTable(t, later[t]);
        if e.Some? {
          ghost var u :| u in later[t] && MergeUpdate(Lookup(between, t, u), later[t][u]).Err?;
          assert RowMerged(before, later - tables, between, t, u);
          MergeNothing(before, t, u);
          assert MergeUpdate(Lookup(before, t, u), Lookup(later, t, u)).Err?;
          return;
        }
        MergedInTurn(before, later - tables, between, map[t := later[t]], updates, later - (tables - {t}));
        tables := tables - {t};
      }
      assert later - tables == later;
      forall t, u
        ensures MergeUpdate(Lookup(before, t, u), Lookup(later, t, u)).Ok?
      {
        assert RowMerged(before, later, updates, t, u);
      }
      e := None;
    }
  }

  /** The update of a row is the merge of its earlier and its later update. */
  ghost predicate RowMerged(us: Updates, later: Updates, us': Updates, t: Table, u: Uuid) {
    MergeUpdate(Lookup(us, t, u), Lookup(later, t, u)) == Ok(Lookup(us', t, u))
  }

  ghost predicate Merged(us: Updates, later: Updates, us': Updates) {
    forall t, u :: RowMerged(us, later, us', t, u)
  }

  ghost predicate OthersKept(us: Updates, us': Updates, t: Table, u: Uuid) {
    forall t', u' :: t' != t || u' != u ==> Lookup(us', t', u') == Lookup(us, t', u')
  }

  lemma MergeNothing(us: Updates, t: Table, u: Uuid)
    requires Pruned(us)
    ensures MergeUpdate(Lookup(us, t, u), NO_UPDATE) == Ok(Lookup(us, t, u))
  {
  }

  lemma NothingMerged(us: Updates, later: Updates)
    requires Pruned(us) && forall t, u :: Lookup(later, t, u) == NO_UPDATE
    ensures Merged(us, later, us)
  {
    forall t, u
      ensures RowMerged(us, later, us, t, u)
    {
      MergeNothing(us, t, u);
    }
  }

  lemma OneMerged(us: Updates, t: Table, u: Uuid, update: ModelUpdate, us': Updates)
    requires Pruned(us) && OthersKept(us, us', t, u)
    requires MergeUpdate(Lookup(us, t, u), update) == Ok(Lookup(us', t, u))
    ensures Merged(us, map[t := map[u := update]], us')
  {
    forall t', u'
      ensures RowMerged(us, map[t := map[u := update]], us', t', u')
    {
      MergeNothing(us, t', u');
    }
  }

  /** Two merges in turn that touch different rows. */
  lemma MergedInTurn(a: Updates, l1: Updates, b: Updates, l2: Updates, c: Updates, l: Updates)
    requires Pruned(a) && Pruned(b) && Merged(a, l1, b) && Merged(b, l2, c)
    requires forall t, u :: Lookup(l1, t, u) == NO_UPDATE || Lookup(l2, t, u) == NO_UPDATE
    requires forall t, u ::
      Lookup(l, t, u) == (if Lookup(l2, t, u) == NO_UPDATE then Lookup(l1, t, u) else Lookup(l2, t, u))
    ensures Merged(a, l, c)
  {
    forall t, u
      ensures RowMerged(a, l, c, t, u)
    {
      assert RowMerged(a, l1, b, t, u) && RowMerged(b, l2, c, t, u);
      assert Lookup(l1, t, u) == NO_UPDATE || Lookup(l2, t, u) == NO_UPDATE;
      MergeNothing(a, t, u);
      MergeNothing(b, t, u);
    }
  }

  lemma Written(before: Updates, us: Updates, t: Table, u: Uuid, m: ModelUpdate)
    requires Pruned(before) && us == (if t in before then before else before[t := map[]])
    requires m.row.Some?
    ensures var w := us[t := us[t][u := m]];
            Pruned(w) && Lookup(w, t, u) == m && OthersKept(before, w, t, u)
  {
    var w := us[t := us[t][u := m]];
    assert u in w[t];
    assert forall t' :: t' in w && t' != t ==> t' in before && w[t'] == before[t'];
  }

  /** The updates without the entry of a row and without the table entry it leaves empty. */
  function Without(us: Updates, t: Table, u: Uuid): Updates {
    if t in us && us[t] - {u} != map[] then us[t := us[t] - {u}] else us - {t}
  }

  lemma Dropped(us: Updates, t: Table, u: Uuid)
    requires Pruned(us)
    ensures Pruned(Without(us, t, u))
    ensures Lookup(Without(us, t, u), t, u) == NO_UPDATE && OthersKept(us, Without(us, t, u), t, u)
  {
    if t in us {
      var rest := us[t] - {u};
      assert rest.Keys == us[t].Keys - {u};
      if rest == map[] {
        assert us[t].Keys - {u} == {};
        assert forall u' :: u' in us[t].Keys ==> u' in us[t].Keys - {u} || u' == u;
      }
    }
  }

  /** The table entry of a row, created when missing, and the steps that drop the row. */
  lemma WithEntry(us: Updates, us': Updates, t: Table, u: Uuid)
    requires us' == if t in us then us else us[t := map[]]
    ensures OthersKept(us, us', t, u)
    ensures Lookup(us, t, u) == if u in us'[t] then us'[t][u] else NO_UPDATE
    ensures var w := us'[t := us'[t] - {u}];
            (if |w[t]| == 0 then w - {t} else w) == Without(us, t, u)
  {
    var rest := us'[t] - {u};
    var w := us'[t := rest];
    if t in us {
      assert us' == us;
      assert |rest| == 0 <==> rest == map[];
      assert w - {t} == us - {t};
    } else {
      assert rest == map[];
      assert w - {t} == us - {t};
    }
  }

  lemma MergedHasRow(a: ModelUpdate, b: ModelUpdate)
    requires MergeUpdate(a, b).Ok?
    ensures MergeUpdate(a, b).value == NO_UPDATE || MergeUpdate(a, b).value.row.Some?
  {
  }
}
