/** An ordinary transaction after which the stored references are not those of the stored rows.

    A root row holds a row `g` strongly and refers weakly to `g` and to `h`, which `g` holds.  The
    transaction lets go of `g`: it is collected in the first round and `h` in the second, so that
    the weak references of the root row go in different rounds. */
module Cascade {
  import opened Values
  import opened Difference
  import opened Merge
  import opened References
  import opened Tracker
  import opened Collector
  import opened GarbageCollection
  import opened Levels
  import opened Rounds
  import opened Outcomes
  import opened Commits

  const UUIDS := SetKind(UuidType, 0)

  /** At least one value. */
  const SOME_UUIDS := SetKind(UuidType, 1)

  const SCHEMA := Schema(
    map["T" := map["holds" := ColumnSchema(UUIDS, true, "G", true, false), "weak" := ColumnSchema(SOME_UUIDS, true, "G", false, false)],
        "G" := map["next" := ColumnSchema(UUIDS, true, "G", true, false)]],
    {"T"})

  function Uuids(us: set<Uuid>): Value {
    SetValue(UuidAtoms(us))
  }

  function RootRow(holds: set<Uuid>): Entry {
    Entry("T", map["holds" := Uuids(holds), "weak" := Uuids({"g", "h"})])
  }

  function HeldRow(next: set<Uuid>): Entry {
    Entry("G", map["next" := Uuids(next)])
  }

  /** The rows when the root row holds `holds`. */
  function RowsWith(holds: set<Uuid>): World {
    map["f" := RootRow(holds), "g" := HeldRow({"h"}), "h" := HeldRow({})]
  }

  lemma TargetsOf(us: set<Uuid>)
    ensures Targets(Uuids(us)) == us
  {
    forall u
      ensures u in UuidsOf(UuidAtoms(us)) <==> u in us
    {
      assert u in us ==> UuidAtom(u) in UuidAtoms(us);
    }
  }

  /** All references of the rows. */
  lemma ReferencesOf(holds: set<Uuid>, e: Edge)
    ensures Refers(SCHEMA, RowsWith(holds), e) <==>
      || (e.from == "f" && e.spec == LocationOf(SCHEMA, "T", "holds") && e.to in holds)
      || (e.from == "f" && e.spec == LocationOf(SCHEMA, "T", "weak") && e.to in {"g", "h"})
      || (e.from == "g" && e.spec == LocationOf(SCHEMA, "G", "next") && e.to == "h")
  {
    TargetsOf(holds);
    TargetsOf({"g", "h"});
    TargetsOf({"h"});
    TargetsOf({});
  }

  lemma StrongReferencesOf(holds: set<Uuid>, e: Edge)
    ensures IsStrong(SCHEMA, e.spec) && Refers(SCHEMA, RowsWith(holds), e) <==>
      || (e.from == "f" && e.spec == LocationOf(SCHEMA, "T", "holds") && e.to in holds)
      || (e.from == "g" && e.spec == LocationOf(SCHEMA, "G", "next") && e.to == "h")
  {
    ReferencesOf(holds, e);
  }

  /** Before the transaction every reference is to an existing row and every row is held. */
  lemma BeforeIsSound()
    ensures Integrity(SCHEMA, RowsWith({"g"})) && Rooted(SCHEMA, RowsWith({"g"}))
  {
    var w := RowsWith({"g"});
    forall e: Edge | Refers(SCHEMA, w, e)
      ensures e.to in w
    {
      ReferencesOf({"g"}, e);
    }
    StrongReferencesOf({"g"}, Edge(LocationOf(SCHEMA, "T", "holds"), "g", "f"));
    StrongReferencesOf({"g"}, Edge(LocationOf(SCHEMA, "G", "next"), "h", "g"));
    assert StronglyReferenced(SCHEMA, w, "g") && StronglyReferenced(SCHEMA, w, "h");
  }

  lemma FirstRound()
    ensures Gone(SCHEMA, RowsWith({}), 1) == {"g"}
  {
    var w := RowsWith({});
    forall e: Edge
      ensures IsStrong(SCHEMA, e.spec) && Refers(SCHEMA, w, e) ==> e.from == "g" && e.to == "h"
    {
      StrongReferencesOf({}, e);
    }
    assert OnlyFrom(SCHEMA, w, "g", {});
    var e := Edge(LocationOf(SCHEMA, "G", "next"), "h", "g");
    StrongReferencesOf({}, e);
    assert !OnlyFrom(SCHEMA, w, "h", {});
    assert Gone(SCHEMA, w, 0) == {};
  }

  lemma SecondRound()
    ensures Gone(SCHEMA, RowsWith({}), 2) == {"g", "h"}
  {
    var w := RowsWith({});
    FirstRound();
    forall e: Edge
      ensures IsStrong(SCHEMA, e.spec) && Refers(SCHEMA, w, e) ==> e.from == "g" && e.to == "h"
    {
      StrongReferencesOf({}, e);
    }
    assert OnlyFrom(SCHEMA, w, "h", {"g"});
  }

  /** The root row loses its weak references in different rounds. */
  lemma RootRowCascades()
    ensures RowCascades(SCHEMA, RowsWith({}), "f")
  {
    var w := RowsWith({});
    FirstRound();
    SecondRound();
    var (e, e') := (Edge(LocationOf(SCHEMA, "T", "weak"), "g", "f"), Edge(LocationOf(SCHEMA, "T", "weak"), "h", "f"));
    ReferencesOf({}, e);
    ReferencesOf({}, e');
    assert DueAt(SCHEMA, w, 1, e) && DueAt(SCHEMA, w, 2, e');
    assert LosesAt(SCHEMA, w, 1, "f") && LosesAt(SCHEMA, w, 2, "f");
    assert CascadesAt(SCHEMA, w, 1, 2, "f");
  }

  lemma GarbageIs()
    ensures Garbage(SCHEMA, RowsWith({}), {"g", "h"})
  {
    var w := RowsWith({});
    SecondRound();
    forall X | Closed(SCHEMA, w, X)
      ensures {"g", "h"} <= X
    {
      GoneIsForced(SCHEMA, w, 2, X);
    }
  }

  /** The root row does not end as it was before the transaction, because it held `g`. */
  lemma RootRowChanges()
    ensures At(RowsWith({"g"}), "f") != At(Sweep(SCHEMA, RowsWith({}) - {"g", "h"}), "f")
  {
    var w := RowsWith({}) - {"g", "h"};
    assert UuidAtom("g") in UuidAtoms({"g"});
    assert UuidAtom("g") !in UuidAtoms({});
    assert w["f"] == RootRow({}) && Sweep(SCHEMA, w)["f"].model["holds"] == Uuids({});
    assert RootRow({"g"}).model["holds"] == Uuids({"g"});
  }

  /** Nothing stands in the way: strong references are to existing rows, and the weak column is
      mutable and loses one of its two values in each of two rounds. */
  lemma NotRefused()
    ensures !Refusable(SCHEMA, RowsWith({}))
  {
    var w := RowsWith({});
    forall e: Edge | IsStrong(SCHEMA, e.spec) && Refers(SCHEMA, w, e)
      ensures e.to in w
    {
      StrongReferencesOf({}, e);
    }
    forall k: nat, f: Uuid, c: Column
      ensures !ViolatedAt(SCHEMA, w, k, f, c)
    {
      NotViolated(k, f, c);
    }
  }

  /** The weak references go in different rounds. */
  lemma OneByOne(k: nat, to: Uuid)
    requires to in DueTo(SCHEMA, RowsWith({}), k, "f", "weak")
    ensures (to == "g" && k == 1) || (to == "h" && k == 2)
  {
    var w := RowsWith({});
    FirstRound();
    SecondRound();
    TargetsOf({"g", "h"});
    if k >= 3 {
      GoneGrows(SCHEMA, w, 2, k - 1);
    }
  }

  lemma NotViolated(k: nat, f: Uuid, c: Column)
    ensures !ViolatedAt(SCHEMA, RowsWith({}), k, f, c)
  {
    var due := DueTo(SCHEMA, RowsWith({}), k, f, c);
    if due != {} {
      WeakOnly(k, f, c);
      var to :| to in due;
      OneByOne(k, to);
      forall x | x in due
        ensures x == to
      {
        OneByOne(k, x);
      }
      assert due == {to};
      TwoValues();
    }
  }

  lemma WeakOnly(k: nat, f: Uuid, c: Column)
    requires DueTo(SCHEMA, RowsWith({}), k, f, c) != {}
    ensures f == "f" && c == "weak"
  {
    var to :| to in DueTo(SCHEMA, RowsWith({}), k, f, c);
    ReferencesOf({}, Edge(LocationOf(SCHEMA, RowsWith({})[f].table, c), to, f));
  }

  lemma TwoValues()
    ensures |UuidAtoms({"g", "h"})| == 2
  {
    AtomsAreAsMany({"g", "h"});
  }

  /** Nothing is left of the weak column, which needs a value. */
  lemma NothingLeft()
    ensures ShortIn(SCHEMA, RowsWith({}), Sweep(SCHEMA, RowsWith({}) - {"g", "h"}), "f", "weak")
  {
    var w := RowsWith({}) - {"g", "h"};
    assert w.Keys == {"f"} && w["f"] == RootRow({});
    var swept := Sweep(SCHEMA, w)["f"].model["weak"];
    forall a | a in UuidAtoms({"g", "h"})
      ensures a !in swept.s
    {
    }
    assert swept.s == {} && UuidAtom("g") in UuidAtoms({"g", "h"});
  }

  function HOME(u: Uuid): Table {
    if u == "f" then "T" else "G"
  }

  lemma RowsValid(holds: set<Uuid>)
    requires holds <= {"g"}
    ensures ValidWorld(SCHEMA, HOME, RowsWith(holds))
  {
    var w := RowsWith(holds);
    forall u | u in w
      ensures ValidEntry(SCHEMA, w[u]) && w[u].table == HOME(u) && Homed(SCHEMA, HOME, Some(w[u]))
    {
      RowValid(holds, u);
      RowHomed(holds, u);
    }
  }

  lemma UuidsFit(us: set<Uuid>)
    ensures HasKind(Uuids(us), UUIDS) && HasKind(Uuids(us), SOME_UUIDS) && NormalValue(Uuids(us))
  {
  }

  lemma RootValid(holds: set<Uuid>)
    ensures ValidEntry(SCHEMA, RootRow(holds))
  {
    UuidsFit(holds);
    UuidsFit({"g", "h"});
  }

  lemma HeldValid(next: set<Uuid>)
    ensures ValidEntry(SCHEMA, HeldRow(next))
  {
    UuidsFit(next);
  }

  lemma RowValid(holds: set<Uuid>, u: Uuid)
    requires u in RowsWith(holds)
    ensures ValidEntry(SCHEMA, RowsWith(holds)[u])
  {
    RootValid(holds);
    HeldValid({"h"});
    HeldValid({});
  }

  lemma RowHomed(holds: set<Uuid>, u: Uuid)
    requires u in RowsWith(holds) && holds <= {"g"}
    ensures Homed(SCHEMA, HOME, Some(RowsWith(holds)[u]))
  {
    forall e: Edge | MaybeRefers(SCHEMA, Some(RowsWith(holds)[u]), e)
      ensures e.spec.toTable == HOME(e.to)
    {
      ReferencesOf(holds, Edge(e.spec, e.to, u));
    }
  }

  /** The root row lets go of `g`. */
  function LetGo(): Changes {
    map["f" := Change("T", ModifyUpdate(RootRow({"g"}).model, map["holds" := Uuids({"g"})], RootRow({}).model))]
  }

  lemma LettingGo()
    ensures ValidChanges(SCHEMA, HOME, RowsWith({"g"}), LetGo()) && Patch(RowsWith({"g"}), LetGo()) == RowsWith({})
  {
    LetGoValid(LetGo()["f"]);
    LetGoLeads(LetGo()["f"]);
  }

  lemma LetGoValid(ch: Change)
    requires ch == LetGo()["f"]
    ensures ValidChange(SCHEMA, HOME, "f", ch) && Before(ch) == Some(RootRow({"g"})) && After(ch) == Some(RootRow({}))
  {
    RowValid({"g"}, "f");
    RowValid({}, "f");
    RowHomed({"g"}, "f");
    RowHomed({}, "f");
    LetGoDelta();
  }

  lemma LetGoLeads(ch: Change)
    requires After(ch) == Some(RootRow({}))
    ensures Patch(RowsWith({"g"}), map["f" := ch]) == RowsWith({})
  {
  }

  lemma LetGoDelta()
    ensures Summarizes(LetGo()["f"].update, Some(RootRow({"g"}).model), Some(RootRow({}).model))
  {
    var (x, y, d) := (RootRow({"g"}).model, RootRow({}).model, map["holds" := Uuids({"g"})]);
    assert UuidAtoms({}) == {} && UuidAtom("g") in UuidAtoms({"g"});
    assert SymDiff(UuidAtoms({"g"}), UuidAtoms({"g"})) == {};
    assert x["holds"] != y["holds"] && ApplyDelta(x, d) == y && Tight(x, d);
  }

  /** The stored references of the rows before the transaction. */
  function STORED(): Index {
    map[LocationOf(SCHEMA, "T", "holds") := map["g" := {"f"}],
        LocationOf(SCHEMA, "T", "weak") := map["g" := {"f"}, "h" := {"f"}],
        LocationOf(SCHEMA, "G", "next") := map["h" := {"g"}]]
  }

  lemma StoredAt(e: Edge)
    ensures e.from in From(STORED(), e.spec, e.to) <==>
      || (e.from == "f" && e.spec == LocationOf(SCHEMA, "T", "holds") && e.to == "g")
      || (e.from == "f" && e.spec == LocationOf(SCHEMA, "T", "weak") && e.to in {"g", "h"})
      || (e.from == "g" && e.spec == LocationOf(SCHEMA, "G", "next") && e.to == "h")
  {
  }

  lemma NothingEmpty()
    ensures NoDangling(STORED())
  {
    var rs := STORED();
    forall s | s in rs
      ensures rs[s] != map[] && forall to :: to in rs[s] ==> rs[s][to] != {}
    {
      assert "g" in rs[s] || "h" in rs[s];
      forall to | to in rs[s]
        ensures rs[s][to] != {}
      {
        assert "f" in rs[s][to] || "g" in rs[s][to];
      }
    }
  }

  lemma StoredSound()
    ensures Sound(SCHEMA, HOME, Database(RowsWith({"g"}), STORED()))
  {
    RowsValid({"g"});
    BeforeIsSound();
    NothingEmpty();
    assert Exact(STORED(), EdgesOf(SCHEMA, RowsWith({"g"}))) by {
      forall e: Edge
        ensures e.from in From(STORED(), e.spec, e.to) <==> e in EdgesOf(SCHEMA, RowsWith({"g"}))
      {
        ReferencesOf({"g"}, e);
        StoredAt(e);
      }
    }
  }

  /** The requested rows are not refused, although sweeping leaves nothing of a column that needs a
      value, and break. */
  lemma OrdinaryCascade()
    ensures Sound(SCHEMA, HOME, Database(RowsWith({"g"}), STORED()))
    ensures ValidChanges(SCHEMA, HOME, RowsWith({"g"}), LetGo()) && Patch(RowsWith({"g"}), LetGo()) == RowsWith({})
    ensures !Refusable(SCHEMA, RowsWith({})) && Breaks(SCHEMA, RowsWith({"g"}), RowsWith({}))
    ensures exists C :: Garbage(SCHEMA, RowsWith({}), C) && ShortIn(SCHEMA, RowsWith({}), Sweep(SCHEMA, RowsWith({}) - C), "f", "weak")
  {
    NothingLeft();
    StoredSound();
    LettingGo();
    NotRefused();
    RootRowCascades();
    GarbageIs();
    RootRowChanges();
    assert BreaksAt(SCHEMA, RowsWith({"g"}), RowsWith({}), {"g", "h"}, "f");
  }

  /** The transaction is committed, and then only the root row is left, with a weak reference to a row
      that is gone and that the stored references do not have. */
  method LetGoOnce() returns (db: Database)
    ensures db.rows.Keys == {"f"} && !Sound(SCHEMA, HOME, db)
    ensures exists e: Edge :: Dangling(db, e)
  {
    OrdinaryCascade();
    var committed, broken;
    db, committed, broken := TransactOnce(SCHEMA, HOME, Database(RowsWith({"g"}), STORED()), LetGo());
    OnlyRootRow(db);
    ghost var e: Edge :| Misplaced(SCHEMA, RowsWith({}), Stored(db.references), db.rows, e);
    MisplacedDangles(db, e);
  }

  ghost predicate Dangling(db: Database, e: Edge) {
    && e.from == "f" && e.spec == LocationOf(SCHEMA, "T", "weak") && e.to in {"g", "h"}
    && Refers(SCHEMA, db.rows, e) && e.to !in db.rows && e.from !in From(db.references, e.spec, e.to)
  }

  lemma OnlyRootRow(db: Database)
    requires exists C :: Garbage(SCHEMA, RowsWith({}), C) && db.rows.Keys == RowsWith({}).Keys - C
    ensures db.rows.Keys == {"f"}
  {
    var C :| Garbage(SCHEMA, RowsWith({}), C) && db.rows.Keys == RowsWith({}).Keys - C;
    GarbageIs();
    GarbageIsUnique(SCHEMA, RowsWith({}), C, {"g", "h"});
  }

  /** Only the root row cascades, because no other row has weak references. */
  lemma MisplacedDangles(db: Database, e: Edge)
    requires db.rows.Keys == {"f"} && Misplaced(SCHEMA, RowsWith({}), Stored(db.references), db.rows, e)
    ensures Dangling(db, e)
  {
    ReferencesOf({}, e);
  }
}
