/** Expansion of named UUIDs in the operations of a transaction (ovsdb/named_uuid.go). */
module NamedUuid {
  import opened Values
  import opened Difference
  import opened Query

  type Names = map<string, Uuid>

  /** A value in OVSDB notation: one atom, a set, or a map. */
  datatype Wire = Single(a: Atom) | Elems(s: seq<Atom>) | Pairs(m: map<Atom, Atom>)

  type WireRow = map<Column, Wire>

  /** A column with a value, as conditions and mutations carry them. */
  datatype Operand = Operand(column: Column, value: Wire)

  datatype WireOperation = WireOperation(
    isInsert: bool,
    table: Table,
    uuid: Uuid,
    uuidName: string,
    where: seq<Operand>,
    mutations: seq<Operand>,
    rows: seq<WireRow>,
    row: WireRow)

  type TableSchemas = map<Table, TableSchema>

  datatype ExpandError = InvalidUuid | TwoUuids | NoTable | NoColumn

  predicate HexDigit(c: char) {
    '0' <= c <= '9' || 'a' <= c <= 'f'
  }

  /** The form of a UUID: 36 characters, hexadecimal digits in groups of 8, 4, 4, 4 and 12. */
  predicate ValidUuid(s: string) {
    |s| == 36 && forall i :: 0 <= i < 36 ==> if i in {8, 13, 18, 23} then s[i] == '-' else HexDigit(s[i])
  }

  // ---- substitution ----

  /** The atom with its name replaced, when it stands where a UUID is expected. */
  function Substitute(names: Names, t: AtomType, a: Atom): Atom {
    if t != UuidType then a
    else match a
      case UuidAtom(u) => if u in names then UuidAtom(names[u]) else a
      case StrAtom(s) => if s in names then StrAtom(names[s]) else a
      case _ => a
  }

  /** No UUID is itself a name. */
  predicate Clean(names: Names) {
    forall n :: n in names ==> names[n] !in names
  }

  lemma SubstituteOnce(names: Names, t: AtomType, a: Atom)
    requires Clean(names)
    ensures Substitute(names, t, Substitute(names, t, a)) == Substitute(names, t, a)
  {
  }

  /** `r` is map `m` with every key and every value replaced. */
  ghost predicate PairsReplaced(names: Names, kt: AtomType, vt: AtomType, m: map<Atom, Atom>, r: map<Atom, Atom>) {
    && (forall k :: k in m ==> Substitute(names, kt, k) in r && r[Substitute(names, kt, k)] == Substitute(names, vt, m[k]))
    && (forall k :: k in r ==> HasSource(names, kt, m, k))
  }

  ghost predicate HasSource(names: Names, kt: AtomType, m: map<Atom, Atom>, k: Atom) {
    exists k0 :: k0 in m && Substitute(names, kt, k0) == k
  }

  /** Keys that become the same have values that become the same. */
  ghost predicate Compatible(names: Names, kt: AtomType, vt: AtomType, m: map<Atom, Atom>) {
    forall k, k' :: k in m && k' in m && Substitute(names, kt, k) == Substitute(names, kt, k') ==>
      Substitute(names, vt, m[k]) == Substitute(names, vt, m[k'])
  }

  lemma {:induction false} ReplaceAll(names: Names, kt: AtomType, vt: AtomType, m: map<Atom, Atom>)
    requires Compatible(names, kt, vt, m)
    ensures exists r :: PairsReplaced(names, kt, vt, m, r)
    decreases m.Keys
  {
    if m == map[] {
      assert PairsReplaced(names, kt, vt, m, map[]);
    } else {
      var k :| k in m;
      StillCompatible(names, kt, vt, m, k);
      ReplaceAll(names, kt, vt, m - {k});
      var r :| PairsReplaced(names, kt, vt, m - {k}, r);
      ReplaceOne(names, kt, vt, m, k, r, r[Substitute(names, kt, k) := Substitute(names, vt, m[k])]);
    }
  }

  lemma StillCompatible(names: Names, kt: AtomType, vt: AtomType, m: map<Atom, Atom>, k: Atom)
    requires Compatible(names, kt, vt, m)
    ensures Compatible(names, kt, vt, m - {k})
  {
    assert forall x :: x in m - {k} ==> x in m && (m - {k})[x] == m[x];
  }

  lemma ReplaceOne(names: Names, kt: AtomType, vt: AtomType, m: map<Atom, Atom>, k: Atom, r: map<Atom, Atom>, r': map<Atom, Atom>)
    requires Compatible(names, kt, vt, m) && k in m && PairsReplaced(names, kt, vt, m - {k}, r)
    requires r' == r[Substitute(names, kt, k) := Substitute(names, vt, m[k])]
    ensures PairsReplaced(names, kt, vt, m, r')
  {
    var rest := m - {k};
    forall x | x in m
      ensures Substitute(names, kt, x) in r' && r'[Substitute(names, kt, x)] == Substitute(names, vt, m[x])
    {
      assert x != k ==> x in rest && rest[x] == m[x];
    }
    forall y | y in r'
      ensures exists k0 :: k0 in m && Substitute(names, kt, k0) == y
    {
      if y in r {
        var k0 :| k0 in rest && Substitute(names, kt, k0) == y;
      }
    }
  }

  /** A map can have its names replaced exactly when no two keys collide with different values. */
  lemma ReplaceableIff(names: Names, kt: AtomType, vt: AtomType, m: map<Atom, Atom>)
    ensures Compatible(names, kt, vt, m) <==> exists r :: PairsReplaced(names, kt, vt, m, r)
  {
    if Compatible(names, kt, vt, m) {
      ReplaceAll(names, kt, vt, m);
    }
    if r :| PairsReplaced(names, kt, vt, m, r) {
      forall k, k' | k in m && k' in m && Substitute(names, kt, k) == Substitute(names, kt, k')
        ensures Substitute(names, vt, m[k]) == Substitute(names, vt, m[k'])
      {
        assert r[Substitute(names, kt, k)] == Substitute(names, vt, m[k]);
      }
    }
  }

  // ---- maps, edited while they are walked ----

  /** What holds while the keys of `todo` are still to be visited. */
  ghost predicate Walking(
    names: Names, kt: AtomType, vt: AtomType, m: map<Atom, Atom>, todo: set<Atom>, cur: map<Atom, Atom>)
  {
    && AllSourced(names, kt, vt, m, cur)
    && AllReached(names, kt, m, cur)
    && AllFinished(names, kt, vt, todo, cur)
  }

  ghost predicate AllSourced(names: Names, kt: AtomType, vt: AtomType, m: map<Atom, Atom>, cur: map<Atom, Atom>) {
    forall k :: k in cur ==> exists k0 :: k0 in m && ComesFrom(names, kt, vt, m, cur, k, k0)
  }

  ghost predicate AllReached(names: Names, kt: AtomType, m: map<Atom, Atom>, cur: map<Atom, Atom>) {
    forall k0 :: k0 in m ==> k0 in cur || Substitute(names, kt, k0) in cur
  }

  ghost predicate AllFinished(names: Names, kt: AtomType, vt: AtomType, todo: set<Atom>, cur: map<Atom, Atom>) {
    forall k :: k in cur && k !in todo ==> Finished(names, kt, vt, cur, k)
  }

  /** The entry at `k` comes from the entry of `m` at `k0`. */
  predicate ComesFrom(names: Names, kt: AtomType, vt: AtomType, m: map<Atom, Atom>, cur: map<Atom, Atom>, k: Atom, k0: Atom)
    requires k in cur && k0 in m
  {
    Substitute(names, kt, k0) == Substitute(names, kt, k) && Substitute(names, vt, m[k0]) == Substitute(names, vt, cur[k])
  }

  predicate Finished(names: Names, kt: AtomType, vt: AtomType, cur: map<Atom, Atom>, k: Atom)
    requires k in cur
  {
    Substitute(names, kt, k) == k && Substitute(names, vt, cur[k]) == cur[k]
  }

  /** The map after a visit to key `k`. */
  function Visited(names: Names, kt: AtomType, vt: AtomType, cur: map<Atom, Atom>, k: Atom): map<Atom, Atom>
    requires k in cur
  {
    var k' := Substitute(names, kt, k);
    (cur - {k})[k' := Substitute(names, vt, cur[k])]
  }

  lemma VisitedInSteps(names: Names, kt: AtomType, vt: AtomType, cur: map<Atom, Atom>, k: Atom)
    requires k in cur
    ensures var k' := Substitute(names, kt, k);
      var moved := if k' != k then cur[k' := cur[k]] - {k} else cur;
      k' in moved && moved[k' := Substitute(names, vt, moved[k'])] == Visited(names, kt, vt, cur, k)
  {
  }

  lemma VisitKeeps(names: Names, kt: AtomType, vt: AtomType, m: map<Atom, Atom>, todo: set<Atom>, cur: map<Atom, Atom>, k: Atom, todo': set<Atom>)
    requires Clean(names) && Walking(names, kt, vt, m, todo, cur) && k in cur && todo - {k} <= todo'
    ensures Walking(names, kt, vt, m, todo', Visited(names, kt, vt, cur, k))
  {
    var (k', cur') := (Substitute(names, kt, k), Visited(names, kt, vt, cur, k));
    SubstituteOnce(names, kt, k);
    SubstituteOnce(names, vt, cur[k]);
    forall x | x in cur'
      ensures exists k0 :: k0 in m && ComesFrom(names, kt, vt, m, cur', x, k0)
      ensures x !in todo' ==> Finished(names, kt, vt, cur', x)
    {
      if x == k' {
        var k0 :| k0 in m && ComesFrom(names, kt, vt, m, cur, k, k0);
        assert ComesFrom(names, kt, vt, m, cur', x, k0);
      } else {
        var k0 :| k0 in m && ComesFrom(names, kt, vt, m, cur, x, k0);
        assert ComesFrom(names, kt, vt, m, cur', x, k0);
      }
    }
    forall k0 | k0 in m
      ensures k0 in cur' || Substitute(names, kt, k0) in cur'
    {
      SubstituteOnce(names, kt, k0);
    }
  }

  lemma WalkStarts(names: Names, kt: AtomType, vt: AtomType, m: map<Atom, Atom>)
    ensures Walking(names, kt, vt, m, m.Keys, m)
  {
    forall k | k in m
      ensures ComesFrom(names, kt, vt, m, m, k, k)
    {
    }
  }

  lemma EndFinished(names: Names, kt: AtomType, vt: AtomType, todo: set<Atom>, cur: map<Atom, Atom>, k: Atom)
    requires AllFinished(names, kt, vt, todo, cur) && todo * cur.Keys == {} && k in cur
    ensures Finished(names, kt, vt, cur, k)
  {
    assert k !in todo * cur.Keys;
  }

  lemma SourceOf(names: Names, kt: AtomType, vt: AtomType, m: map<Atom, Atom>, cur: map<Atom, Atom>, k: Atom) returns (k0: Atom)
    requires AllSourced(names, kt, vt, m, cur) && k in cur
    ensures k0 in m && ComesFrom(names, kt, vt, m, cur, k, k0)
  {
    k0 :| k0 in m && ComesFrom(names, kt, vt, m, cur, k, k0);
  }

  /** At the end every key of the map is there in its replaced form. */
  lemma EndReached(names: Names, kt: AtomType, vt: AtomType, m: map<Atom, Atom>, todo: set<Atom>, cur: map<Atom, Atom>, k0: Atom)
    requires AllReached(names, kt, m, cur) && AllFinished(names, kt, vt, todo, cur) && todo * cur.Keys == {} && k0 in m
    ensures Substitute(names, kt, k0) in cur && Finished(names, kt, vt, cur, Substitute(names, kt, k0))
  {
    if k0 in cur {
      EndFinished(names, kt, vt, todo, cur, k0);
    }
    EndFinished(names, kt, vt, todo, cur, Substitute(names, kt, k0));
  }

  lemma WalkEnds(names: Names, kt: AtomType, vt: AtomType, m: map<Atom, Atom>, todo: set<Atom>, cur: map<Atom, Atom>)
    requires Clean(names) && Compatible(names, kt, vt, m)
    requires Walking(names, kt, vt, m, todo, cur) && todo * cur.Keys == {}
    ensures PairsReplaced(names, kt, vt, m, cur)
  {
    forall k | k in cur
      ensures HasSource(names, kt, m, k)
    {
      EndFinished(names, kt, vt, todo, cur, k);
      var k0 := SourceOf(names, kt, vt, m, cur, k);
    }
    forall k0 | k0 in m
      ensures Substitute(names, kt, k0) in cur && cur[Substitute(names, kt, k0)] == Substitute(names, vt, m[k0])
    {
      EndReached(names, kt, vt, m, todo, cur, k0);
      var k1 := SourceOf(names, kt, vt, m, cur, Substitute(names, kt, k0));
    }
  }

  /** The atoms that may be written. */
  function NamedAtoms(names: Names): set<Atom> {
    (set n | n in names :: UuidAtom(names[n])) + (set n | n in names :: StrAtom(names[n]))
  }

  /** A visit to one key. */
  method VisitKey(names: Names, kt: AtomType, vt: AtomType, cur: map<Atom, Atom>, k: Atom) returns (r: map<Atom, Atom>, k': Atom)
    requires k in cur
    ensures r == Visited(names, kt, vt, cur, k) && k' == Substitute(names, kt, k)
  {
    r, k' := cur, Substitute(names, kt, k);
    VisitedInSteps(names, kt, vt, r, k);
    if k' != k {
      r := r[k' := r[k]] - {k};
    }
    r := r[k' := Substitute(names, vt, r[k'])];
  }

  /** What is left to visit: a key just written may be visited again, or not. */
  method VisitNext(unvisited: set<Atom>, todo: set<Atom>, k: Atom, k': Atom) returns (next: set<Atom>)
    requires todo <= unvisited
    ensures todo - {k} <= next <= unvisited - {k}
  {
    next := todo - {k};
    if k' in unvisited && k' != k {
      if * {
        next := next + {k'};
      }
    }
  }

  /** The walk over a map that is edited on the way; a key that was just written may or may not
      be visited again.  Whatever the order, every key and value is replaced. */
  method ExpandPairs(names: Names, kt: AtomType, vt: AtomType, m: map<Atom, Atom>) returns (r: map<Atom, Atom>)
    ensures Clean(names) && Compatible(names, kt, vt, m) ==> PairsReplaced(names, kt, vt, m, r)
  {
    r := m;
    var todo := m.Keys;
    var unvisited := m.Keys + NamedAtoms(names);
    WalkStarts(names, kt, vt, m);
    while todo * r.Keys != {}
      invariant todo <= unvisited
      invariant Clean(names) ==> Walking(names, kt, vt, m, todo, r)
      decreases unvisited
    {
      var k :| k in todo * r.Keys;
      ghost var (before, start) := (r, todo);
      var k';
      r, k' := VisitKey(names, kt, vt, r, k);
      todo := VisitNext(unvisited, todo, k, k');
      unvisited := unvisited - {k};
      if Clean(names) {
        VisitKeeps(names, kt, vt, m, start, before, k, todo);
      }
    }
    if Clean(names) && Compatible(names, kt, vt, m) {
      WalkEnds(names, kt, vt, m, todo, r);
    }
  }

  // ---- column values ----

  /** The type of atoms, set elements and map keys of a column. */
  function KeyType(k: Kind): AtomType {
    match k
    case AtomKind(t) => t
    case OptKind(t) => t
    case SetKind(t, _) => t
    case MapKind(kt, _) => kt
  }

  ghost predicate ElemsReplaced(names: Names, t: AtomType, s: seq<Atom>, r: seq<Atom>) {
    |r| == |s| && forall i :: 0 <= i < |s| ==> r[i] == Substitute(names, t, s[i])
  }

  /** `r` is `v` with every name replaced that stands where the column holds a UUID. */
  ghost predicate Replaced(names: Names, kind: Kind, v: Wire, r: Wire) {
    match v
    case Single(a) => r == Single(Substitute(names, KeyType(kind), a))
    case Elems(s) => r.Elems? && ElemsReplaced(names, KeyType(kind), s, r.s)
    case Pairs(m) => r.Pairs? && if kind.MapKind? then PairsReplaced(names, kind.k, kind.v, m, r.m) else r == v
  }

  /** Values that are passed over although they may hold names: maps whose keys alone are UUIDs,
      and lists of keys for a column that maps UUIDs to UUIDs. */
  predicate Skipped(kind: Kind, v: Wire) {
    kind.MapKind? && kind.k == UuidType && (v.Pairs? <==> kind.v != UuidType)
  }

  /** Whether a name stands in a value where the column holds UUID keys. */
  predicate Mentions(names: Names, v: Wire) {
    match v
    case Single(a) => Substitute(names, UuidType, a) != a
    case Elems(s) => exists i :: 0 <= i < |s| && Substitute(names, UuidType, s[i]) != s[i]
    case Pairs(m) => exists k :: k in m && Substitute(names, UuidType, k) != k
  }

  /** A value that is passed over is right as it is exactly when it mentions no name. */
  lemma SkippedIsRight(names: Names, kind: Kind, v: Wire)
    requires Clean(names) && Skipped(kind, v)
    ensures Replaced(names, kind, v, v) <==> !Mentions(names, v)
  {
    match v
    case Single(a) =>
    case Elems(s) =>
    case Pairs(m) => SkippedPairs(names, kind.v, m);
  }

  lemma SkippedPairs(names: Names, vt: AtomType, m: map<Atom, Atom>)
    requires Clean(names) && vt != UuidType
    ensures PairsReplaced(names, UuidType, vt, m, m) <==> forall k :: k in m ==> Substitute(names, UuidType, k) == k
  {
    if k :| k in m && Substitute(names, UuidType, k) != k {
      forall k0 | k0 in m
        ensures Substitute(names, UuidType, k0) != k
      {
        SubstituteOnce(names, UuidType, k0);
      }
      assert !HasSource(names, UuidType, m, k);
    } else {
      assert forall k :: k in m ==> HasSource(names, UuidType, m, k);
    }
  }

  ghost predicate CompatibleValue(names: Names, kind: Kind, v: Wire) {
    v.Pairs? && kind.MapKind? ==> Compatible(names, kind.k, kind.v, v.m)
  }

  method ExpandElems(names: Names, t: AtomType, s: seq<Atom>) returns (r: seq<Atom>)
    ensures ElemsReplaced(names, t, s, r)
  {
    r := s;
    for i := 0 to |s|
      invariant |r| == |s|
      invariant forall j :: 0 <= j < |s| ==> r[j] == if j < i then Substitute(names, t, s[j]) else s[j]
    {
      r := r[i := Substitute(names, t, s[i])];
    }
  }

  lemma NothingToReplace(names: Names, kind: Kind, v: Wire)
    requires !kind.MapKind? || !v.Pairs? || (kind.k != UuidType && kind.v != UuidType)
    requires KeyType(kind) != UuidType || (v.Pairs? && !kind.MapKind?)
    ensures Replaced(names, kind, v, v)
  {
    if v.Pairs? && kind.MapKind? {
      forall k | k in v.m
        ensures exists k0 :: k0 in v.m && Substitute(names, kind.k, k0) == k
      {
        assert Substitute(names, kind.k, k) == k;
      }
    }
  }

  /** `expandNamedUUID`: every name is replaced, except in values that are passed over. */
  method ExpandNamedUUID(names: Names, kind: Kind, v: Wire) returns (r: Wire)
    ensures Skipped(kind, v) ==> r == v
    ensures !Skipped(kind, v) && Clean(names) && CompatibleValue(names, kind, v) ==> Replaced(names, kind, v, r)
  {
    r := v;
    if kind.MapKind? && kind.v == UuidType {
      if v.Pairs? {
        var m := ExpandPairs(names, kind.k, kind.v, v.m);
        r := Pairs(m);
      } else if kind.k != UuidType {
        NothingToReplace(names, kind, v);
      }
    } else if KeyType(kind) == UuidType {
      if v.Elems? {
        var s := ExpandElems(names, UuidType, v.s);
        r := Elems(s);
      } else if v.Single? {
        r := Single(Substitute(names, UuidType, v.a));
      }
    } else {
      NothingToReplace(names, kind, v);
    }
  }

  // ---- pass 1: the names ----

  ghost predicate Named(ops: seq<WireOperation>, i: int) {
    0 <= i < |ops| && ops[i].isInsert && ops[i].uuidName != ""
  }

  /** Each name declared by an insert stands for the UUID of that insert, and for no other. */
  ghost predicate Declares(ops: seq<WireOperation>, names: Names) {
    && (forall i :: Named(ops, i) ==> ops[i].uuidName in names && names[ops[i].uuidName] == ops[i].uuid)
    && (forall n :: n in names ==> exists i :: Named(ops, i) && ops[i].uuidName == n)
  }

  ghost predicate ValidInserts(ops: seq<WireOperation>) {
    forall i :: 0 <= i < |ops| && ops[i].isInsert ==> ValidUuid(ops[i].uuid)
  }

  /** No name is given to two UUIDs. */
  ghost predicate OneUuidEach(ops: seq<WireOperation>) {
    forall i, j :: Named(ops, i) && Named(ops, j) && ops[i].uuidName == ops[j].uuidName ==> ops[i].uuid == ops[j].uuid
  }

  function Unnamed(op: WireOperation): WireOperation {
    if op.isInsert then op.(uuidName := "") else op
  }

  lemma DeclaresNext(ops: seq<WireOperation>, i: nat, names: Names, names': Names)
    requires i < |ops| && Declares(ops[..i], names)
    requires Named(ops, i) ==> names' == names[ops[i].uuidName := ops[i].uuid]
    requires Named(ops, i) && ops[i].uuidName in names ==> names[ops[i].uuidName] == ops[i].uuid
    requires !Named(ops, i) ==> names' == names
    ensures Declares(ops[..i + 1], names')
  {
    var (p, q) := (ops[..i], ops[..i + 1]);
    forall j | Named(q, j)
      ensures q[j].uuidName in names' && names'[q[j].uuidName] == q[j].uuid
    {
      if j < i {
        assert Named(p, j) && p[j] == q[j];
      } else {
        assert Named(ops, i);
      }
    }
    forall n | n in names'
      ensures exists j :: Named(q, j) && q[j].uuidName == n
    {
      if n in names {
        var j :| Named(p, j) && p[j].uuidName == n;
        assert Named(q, j) && q[j].uuidName == n;
      } else {
        assert Named(q, i) && q[i].uuidName == n;
      }
    }
  }

  lemma TwoDeclared(ops: seq<WireOperation>, i: nat, names: Names)
    requires i < |ops| && Declares(ops[..i], names) && Named(ops, i)
    requires ops[i].uuidName in names && names[ops[i].uuidName] != ops[i].uuid
    ensures !OneUuidEach(ops)
  {
    var j :| Named(ops[..i], j) && ops[..i][j].uuidName == ops[i].uuidName;
    assert Named(ops, j) && ops[j] == ops[..i][j];
  }

  /** The first pass: it succeeds exactly when the inserts have valid UUIDs and no name is given
      to two of them, and collects every name, wherever it is declared. */
  method CollectNames(ops: seq<WireOperation>) returns (r: Result<(seq<WireOperation>, Names), ExpandError>)
    ensures r.Ok? <==> ValidInserts(ops) && OneUuidEach(ops)
    ensures r.Ok? ==> Declares(ops, r.value.1)
    ensures r.Ok? ==> |r.value.0| == |ops| && forall i :: 0 <= i < |ops| ==> r.value.0[i] == Unnamed(ops[i])
  {
    var (ops', names: Names) := (ops, map[]);
    for i := 0 to |ops|
      invariant |ops'| == |ops|
      invariant forall j :: 0 <= j < |ops| ==> ops'[j] == if j < i then Unnamed(ops[j]) else ops[j]
      invariant forall j :: 0 <= j < i && ops[j].isInsert ==> ValidUuid(ops[j].uuid)
      invariant Declares(ops[..i], names)
    {
      var op := ops'[i];
      if !op.isInsert {
        DeclaresNext(ops, i, names, names);
        continue;
      }
      ghost var before := names;
      if !ValidUuid(op.uuid) {
        return Err(InvalidUuid);
      }
      if op.uuidName != "" {
        if op.uuidName in names {
          var uuid := names[op.uuidName];
          if op.uuid != "" && op.uuid != uuid {
            TwoDeclared(ops, i, names);
            return Err(TwoUuids);
          }
          op := op.(uuid := uuid);
        } else {
          names := names[op.uuidName := op.uuid];
        }
        op := op.(uuidName := "");
      }
      DeclaresNext(ops, i, before, names);
      ops' := ops'[i := op];
    }
    assert ops[..|ops|] == ops;
    return Ok((ops', names));
  }

  /** Names that do not look like UUIDs, as names of section 5.1 of RFC 7047 never do, keep the
      substitution clean. */
  lemma NamesClean(ops: seq<WireOperation>, names: Names)
    requires ValidInserts(ops) && Declares(ops, names)
    requires forall i :: Named(ops, i) ==> !ValidUuid(ops[i].uuidName)
    ensures Clean(names)
  {
    forall n | n in names
      ensures ValidUuid(names[n]) && !ValidUuid(n)
    {
      var i :| Named(ops, i) && ops[i].uuidName == n;
    }
  }

  // ---- what becomes of names ----

  /** No name looks like a UUID. */
  ghost predicate PlainNames(ops: seq<WireOperation>) {
    forall i :: Named(ops, i) ==> !ValidUuid(ops[i].uuidName)
  }

  /** Atom `a` names the row of some insert. */
  ghost predicate IsName(ops: seq<WireOperation>, a: Atom) {
    exists i :: Named(ops, i) && (a == UuidAtom(ops[i].uuidName) || a == StrAtom(ops[i].uuidName))
  }

  /** What becomes of an atom: a name that stands where a UUID is expected becomes the UUID of the
      insert that declares it, and anything else stays. */
  ghost predicate AtomResolved(ops: seq<WireOperation>, isUuid: bool, a: Atom, r: Atom) {
    if isUuid && IsName(ops, a) then
      exists i :: Named(ops, i) &&
        ((a == UuidAtom(ops[i].uuidName) && r == UuidAtom(ops[i].uuid)) || (a == StrAtom(ops[i].uuidName) && r == StrAtom(ops[i].uuid)))
    else r == a
  }

  lemma NameIff(ops: seq<WireOperation>, names: Names, a: Atom)
    requires Declares(ops, names)
    ensures IsName(ops, a) <==> (a.UuidAtom? && a.u in names) || (a.StrAtom? && a.s in names)
  {
    if i :| Named(ops, i) && (a == UuidAtom(ops[i].uuidName) || a == StrAtom(ops[i].uuidName)) {
      assert ops[i].uuidName in names;
    }
    if a.UuidAtom? && a.u in names {
      var i :| Named(ops, i) && ops[i].uuidName == a.u;
    }
    if a.StrAtom? && a.s in names {
      var i :| Named(ops, i) && ops[i].uuidName == a.s;
    }
  }

  /** Substitution does this, and leaves no name behind. */
  lemma SubstituteMeans(ops: seq<WireOperation>, names: Names, t: AtomType, a: Atom)
    requires Declares(ops, names)
    ensures AtomResolved(ops, t == UuidType, a, Substitute(names, t, a))
    ensures Clean(names) && t == UuidType ==> !IsName(ops, Substitute(names, t, a))
  {
    NameIff(ops, names, a);
    NameIff(ops, names, Substitute(names, t, a));
    if t == UuidType && IsName(ops, a) {
      var i :| Named(ops, i) && (a == UuidAtom(ops[i].uuidName) || a == StrAtom(ops[i].uuidName));
      assert names[ops[i].uuidName] == ops[i].uuid;
    }
  }

  /** An atom becomes one thing only. */
  lemma ResolvedOnce(ops: seq<WireOperation>, isUuid: bool, a: Atom, r: Atom, r': Atom)
    requires OneUuidEach(ops) && AtomResolved(ops, isUuid, a, r) && AtomResolved(ops, isUuid, a, r')
    ensures r == r'
  {
    if isUuid && IsName(ops, a) {
      var i :| Named(ops, i) &&
        ((a == UuidAtom(ops[i].uuidName) && r == UuidAtom(ops[i].uuid)) || (a == StrAtom(ops[i].uuidName) && r == StrAtom(ops[i].uuid)));
      var j :| Named(ops, j) &&
        ((a == UuidAtom(ops[j].uuidName) && r' == UuidAtom(ops[j].uuid)) || (a == StrAtom(ops[j].uuidName) && r' == StrAtom(ops[j].uuid)));
    }
  }

  /** No name is left where a UUID is expected. */
  lemma NoNameLeft(ops: seq<WireOperation>, a: Atom, r: Atom)
    requires ValidInserts(ops) && PlainNames(ops) && AtomResolved(ops, true, a, r)
    ensures !IsName(ops, r)
  {
    if IsName(ops, a) {
      var i :| Named(ops, i) &&
        ((a == UuidAtom(ops[i].uuidName) && r == UuidAtom(ops[i].uuid)) || (a == StrAtom(ops[i].uuidName) && r == StrAtom(ops[i].uuid)));
      assert ValidUuid(ops[i].uuid);
    }
  }

  /** The column holds UUIDs as atoms, elements or keys. */
  predicate UuidKeys(kind: Kind) {
    match kind
    case AtomKind(t) => t == UuidType
    case OptKind(t) => t == UuidType
    case SetKind(t, _) => t == UuidType
    case MapKind(k, _) => k == UuidType
  }

  /** Maps whose keys alone are UUIDs, and lists of keys for maps from UUIDs to UUIDs. */
  predicate PassedOver(kind: Kind, v: Wire) {
    kind.MapKind? && kind.k == UuidType && if kind.v == UuidType then !v.Pairs? else v.Pairs?
  }

  /** Every pair with key and value resolved, and no other. */
  ghost predicate PairsResolved(ops: seq<WireOperation>, kind: Kind, m: map<Atom, Atom>, r: map<Atom, Atom>)
    requires kind.MapKind?
  {
    && (forall k :: k in m ==> PairFrom(ops, kind, k, m[k], r))
    && (forall k' :: k' in r ==> exists k :: k in m && AtomResolved(ops, kind.k == UuidType, k, k'))
  }

  ghost predicate PairFrom(ops: seq<WireOperation>, kind: Kind, k: Atom, v: Atom, r: map<Atom, Atom>)
    requires kind.MapKind?
  {
    exists k' :: k' in r && AtomResolved(ops, kind.k == UuidType, k, k') && AtomResolved(ops, kind.v == UuidType, v, r[k'])
  }

  /** Two keys of a map become the same although their values do not. */
  ghost predicate Collide(ops: seq<WireOperation>, kind: Kind, m: map<Atom, Atom>)
    requires kind.MapKind?
  {
    exists k, k', x, y, y' :: CollideAt(ops, kind, m, k, k', x, y, y')
  }

  ghost predicate CollideAt(ops: seq<WireOperation>, kind: Kind, m: map<Atom, Atom>, k: Atom, k': Atom, x: Atom, y: Atom, y': Atom)
    requires kind.MapKind?
  {
    && k in m && k' in m && y != y'
    && AtomResolved(ops, kind.k == UuidType, k, x) && AtomResolved(ops, kind.k == UuidType, k', x)
    && AtomResolved(ops, kind.v == UuidType, m[k], y) && AtomResolved(ops, kind.v == UuidType, m[k'], y')
  }

  /** What becomes of the value of a column. */
  ghost predicate ValueResolved(ops: seq<WireOperation>, kind: Kind, v: Wire, r: Wire) {
    if PassedOver(kind, v) then r == v
    else match v
      case Single(a) => r.Single? && AtomResolved(ops, UuidKeys(kind), a, r.a)
      case Elems(s) => r.Elems? && |r.s| == |s| && forall i :: 0 <= i < |s| ==> AtomResolved(ops, UuidKeys(kind), s[i], r.s[i])
      case Pairs(m) => if kind.MapKind? then !Collide(ops, kind, m) ==> r.Pairs? && PairsResolved(ops, kind, m, r.m) else r == v
  }

  lemma NoneCollide(ops: seq<WireOperation>, names: Names, kind: Kind, m: map<Atom, Atom>)
    requires Declares(ops, names) && kind.MapKind? && !Collide(ops, kind, m)
    ensures Compatible(names, kind.k, kind.v, m)
  {
    forall k, k' | k in m && k' in m && Substitute(names, kind.k, k) == Substitute(names, kind.k, k')
      ensures Substitute(names, kind.v, m[k]) == Substitute(names, kind.v, m[k'])
    {
      SubstituteMeans(ops, names, kind.k, k);
      SubstituteMeans(ops, names, kind.k, k');
      SubstituteMeans(ops, names, kind.v, m[k]);
      SubstituteMeans(ops, names, kind.v, m[k']);
      assert !CollideAt(ops, kind, m, k, k', Substitute(names, kind.k, k), Substitute(names, kind.v, m[k]), Substitute(names, kind.v, m[k']));
    }
  }

  lemma PairMeans(ops: seq<WireOperation>, names: Names, kind: Kind, m: map<Atom, Atom>, r: map<Atom, Atom>, k: Atom)
    requires Declares(ops, names) && kind.MapKind? && PairsReplaced(names, kind.k, kind.v, m, r) && k in m
    ensures PairFrom(ops, kind, k, m[k], r)
  {
    SubstituteMeans(ops, names, kind.k, k);
    SubstituteMeans(ops, names, kind.v, m[k]);
    var k' := Substitute(names, kind.k, k);
    assert k' in r && r[k'] == Substitute(names, kind.v, m[k]);
  }

  lemma KeyMeans(ops: seq<WireOperation>, names: Names, kind: Kind, m: map<Atom, Atom>, k': Atom)
    requires Declares(ops, names) && kind.MapKind? && HasSource(names, kind.k, m, k')
    ensures exists k :: k in m && AtomResolved(ops, kind.k == UuidType, k, k')
  {
    var k :| k in m && Substitute(names, kind.k, k) == k';
    SubstituteMeans(ops, names, kind.k, k);
  }

  lemma PairsMean(ops: seq<WireOperation>, names: Names, kind: Kind, m: map<Atom, Atom>, r: map<Atom, Atom>)
    requires Declares(ops, names) && kind.MapKind? && PairsReplaced(names, kind.k, kind.v, m, r)
    ensures PairsResolved(ops, kind, m, r)
  {
    forall k | k in m
      ensures PairFrom(ops, kind, k, m[k], r)
    {
      PairMeans(ops, names, kind, m, r, k);
    }
    forall k' | k' in r
      ensures exists k :: k in m && AtomResolved(ops, kind.k == UuidType, k, k')
    {
      KeyMeans(ops, names, kind, m, k');
    }
  }

  /** What is replaced is resolved. */
  lemma ReplacedMeans(ops: seq<WireOperation>, names: Names, kind: Kind, v: Wire, r: Wire)
    requires Declares(ops, names) && Clean(names)
    requires (Skipped(kind, v) ==> r == v) && (!Skipped(kind, v) && CompatibleValue(names, kind, v) ==> Replaced(names, kind, v, r))
    ensures ValueResolved(ops, kind, v, r)
  {
    if !PassedOver(kind, v) {
      match v
      case Single(a) => SubstituteMeans(ops, names, KeyType(kind), a);
      case Elems(s) =>
        forall i | 0 <= i < |s|
          ensures AtomResolved(ops, UuidKeys(kind), s[i], r.s[i])
        {
          SubstituteMeans(ops, names, KeyType(kind), s[i]);
        }
      case Pairs(m) =>
        if kind.MapKind? && !Collide(ops, kind, m) {
          NoneCollide(ops, names, kind, m);
          PairsMean(ops, names, kind, m, r.m);
        }
    }
  }

  // ---- pass 2: the values ----

  /** What the expansion makes of the value of a column. */
  ghost predicate Expands(names: Names, ts: TableSchema, c: Column, v: Wire, r: Wire) {
    && KindOf(ts, c).Some?
    && var kind := KindOf(ts, c).value;
       (Skipped(kind, v) ==> r == v) && (!Skipped(kind, v) && Clean(names) && CompatibleValue(names, kind, v) ==> Replaced(names, kind, v, r))
  }

  method ExpandColumn(names: Names, ts: TableSchema, c: Column, v: Wire) returns (r: Result<Wire, ExpandError>)
    ensures r.Ok? <==> KindOf(ts, c).Some?
    ensures r.Ok? ==> Expands(names, ts, c, v, r.value)
  {
    if KindOf(ts, c).None? {
      return Err(NoColumn);
    }
    var w := ExpandNamedUUID(names, KindOf(ts, c).value, v);
    return Ok(w);
  }

  ghost predicate OperandsExpand(names: Names, ts: TableSchema, xs: seq<Operand>, ys: seq<Operand>) {
    |ys| == |xs| && forall i :: 0 <= i < |xs| ==>
      ys[i].column == xs[i].column && Expands(names, ts, xs[i].column, xs[i].value, ys[i].value)
  }

  predicate OperandsKnown(ts: TableSchema, xs: seq<Operand>) {
    forall i :: 0 <= i < |xs| ==> KindOf(ts, xs[i].column).Some?
  }

  method ExpandOperands(names: Names, ts: TableSchema, xs: seq<Operand>) returns (r: Result<seq<Operand>, ExpandError>)
    ensures r.Ok? <==> OperandsKnown(ts, xs)
    ensures r.Ok? ==> OperandsExpand(names, ts, xs, r.value)
  {
    var ys := xs;
    for i := 0 to |xs|
      invariant |ys| == |xs|
      invariant forall j :: i <= j < |xs| ==> ys[j] == xs[j]
      invariant OperandsExpand(names, ts, xs[..i], ys[..i])
    {
      var w := ExpandColumn(names, ts, xs[i].column, xs[i].value);
      if w.Err? {
        return Err(w.error);
      }
      ys := ys[i := ys[i].(value := w.value)];
    }
    assert xs[..|xs|] == xs && ys[..|xs|] == ys;
    return Ok(ys);
  }

  ghost predicate RowExpands(names: Names, ts: TableSchema, row: WireRow, r: WireRow) {
    r.Keys == row.Keys && forall c :: c in row ==> Expands(names, ts, c, row[c], r[c])
  }

  predicate RowKnown(ts: TableSchema, row: WireRow) {
    forall c :: c in row ==> KindOf(ts, c).Some?
  }

  method ExpandRow(names: Names, ts: TableSchema, row: WireRow) returns (r: Result<WireRow, ExpandError>)
    ensures r.Ok? <==> RowKnown(ts, row)
    ensures r.Ok? ==> RowExpands(names, ts, row, r.value)
  {
    var row' := row;
    var todo := row.Keys;
    while todo != {}
      invariant todo <= row.Keys && row'.Keys == row.Keys
      invariant forall c :: c in row && c !in todo ==> Expands(names, ts, c, row[c], row'[c])
      decreases todo
    {
      var c :| c in todo;
      var w := ExpandColumn(names, ts, c, row[c]);
      if w.Err? {
        return Err(w.error);
      }
      row' := row'[c := w.value];
      todo := todo - {c};
    }
    return Ok(row');
  }

  ghost predicate RowsExpand(names: Names, ts: TableSchema, rows: seq<WireRow>, r: seq<WireRow>) {
    |r| == |rows| && forall i :: 0 <= i < |rows| ==> RowExpands(names, ts, rows[i], r[i])
  }

  method ExpandRows(names: Names, ts: TableSchema, rows: seq<WireRow>) returns (r: Result<seq<WireRow>, ExpandError>)
    ensures r.Ok? <==> forall i :: 0 <= i < |rows| ==> RowKnown(ts, rows[i])
    ensures r.Ok? ==> RowsExpand(names, ts, rows, r.value)
  {
    var rows' := [];
    for i := 0 to |rows|
      invariant |rows'| == i
      invariant forall j :: 0 <= j < i ==> RowKnown(ts, rows[j]) && RowExpands(names, ts, rows[j], rows'[j])
    {
      var one := ExpandRow(names, ts, rows[i]);
      if one.Err? {
        return Err(one.error);
      }
      rows' := rows' + [one.value];
    }
    return Ok(rows');
  }

  /** Every value of an operation is expanded, and nothing else is changed. */
  ghost predicate OperationExpands(names: Names, schema: TableSchemas, op: WireOperation, r: WireOperation) {
    && op.table in schema
    && r == op.(where := r.where, mutations := r.mutations, rows := r.rows, row := r.row)
    && var ts := schema[op.table];
       && OperandsExpand(names, ts, op.where, r.where)
       && OperandsExpand(names, ts, op.mutations, r.mutations)
       && RowsExpand(names, ts, op.rows, r.rows)
       && RowExpands(names, ts, op.row, r.row)
  }

  /** The table and the columns of an operation are in the schema. */
  predicate Known(schema: TableSchemas, op: WireOperation) {
    && op.table in schema
    && var ts := schema[op.table];
       && OperandsKnown(ts, op.where) && OperandsKnown(ts, op.mutations)
       && (forall i :: 0 <= i < |op.rows| ==> RowKnown(ts, op.rows[i])) && RowKnown(ts, op.row)
  }

  method ExpandOperation(names: Names, schema: TableSchemas, op: WireOperation) returns (r: Result<WireOperation, ExpandError>)
    ensures r.Ok? <==> Known(schema, op)
    ensures r.Ok? ==> OperationExpands(names, schema, op, r.value)
  {
    if op.table !in schema {
      return Err(NoTable);
    }
    var ts := schema[op.table];
    var where := ExpandOperands(names, ts, op.where);
    if where.Err? {
      return Err(where.error);
    }
    var mutations := ExpandOperands(names, ts, op.mutations);
    if mutations.Err? {
      return Err(mutations.error);
    }
    var rows := ExpandRows(names, ts, op.rows);
    if rows.Err? {
      return Err(rows.error);
    }
    var row := ExpandRow(names, ts, op.row);
    if row.Err? {
      return Err(row.error);
    }
    return Ok(op.(where := where.value, mutations := mutations.value, rows := rows.value, row := row.value));
  }

  /** The value of a column of table schema `ts`, where `_uuid` is a UUID column of every table. */
  ghost predicate ColumnResolved(ops: seq<WireOperation>, ts: TableSchema, c: Column, v: Wire, r: Wire) {
    if c == "_uuid" then ValueResolved(ops, AtomKind(UuidType), v, r) else c in ts && ValueResolved(ops, ts[c].kind, v, r)
  }

  ghost predicate OperandsResolved(ops: seq<WireOperation>, ts: TableSchema, xs: seq<Operand>, ys: seq<Operand>) {
    |ys| == |xs| && forall i :: 0 <= i < |xs| ==>
      ys[i].column == xs[i].column && ColumnResolved(ops, ts, xs[i].column, xs[i].value, ys[i].value)
  }

  ghost predicate RowResolved(ops: seq<WireOperation>, ts: TableSchema, row: WireRow, r: WireRow) {
    r.Keys == row.Keys && forall c :: c in row ==> ColumnResolved(ops, ts, c, row[c], r[c])
  }

  /** Every value of an operation is resolved; an insert loses its own name, and nothing else is
      changed. */
  ghost predicate OperationResolved(ops: seq<WireOperation>, schema: TableSchemas, op: WireOperation, r: WireOperation) {
    && op.table in schema && r.table == op.table && r.isInsert == op.isInsert && r.uuid == op.uuid
    && r.uuidName == (if op.isInsert then "" else op.uuidName)
    && OperandsResolved(ops, schema[op.table], op.where, r.where)
    && OperandsResolved(ops, schema[op.table], op.mutations, r.mutations)
    && |r.rows| == |op.rows| && (forall i :: 0 <= i < |op.rows| ==> RowResolved(ops, schema[op.table], op.rows[i], r.rows[i]))
    && RowResolved(ops, schema[op.table], op.row, r.row)
  }

  lemma ColumnMeans(ops: seq<WireOperation>, names: Names, ts: TableSchema, c: Column, v: Wire, r: Wire)
    requires Declares(ops, names) && Clean(names) && Expands(names, ts, c, v, r)
    ensures ColumnResolved(ops, ts, c, v, r)
  {
    ReplacedMeans(ops, names, KindOf(ts, c).value, v, r);
  }

  lemma OperandsMean(ops: seq<WireOperation>, names: Names, ts: TableSchema, xs: seq<Operand>, ys: seq<Operand>)
    requires Declares(ops, names) && Clean(names) && OperandsExpand(names, ts, xs, ys)
    ensures OperandsResolved(ops, ts, xs, ys)
  {
    forall i | 0 <= i < |xs|
      ensures ColumnResolved(ops, ts, xs[i].column, xs[i].value, ys[i].value)
    {
      ColumnMeans(ops, names, ts, xs[i].column, xs[i].value, ys[i].value);
    }
  }

  lemma RowMeans(ops: seq<WireOperation>, names: Names, ts: TableSchema, row: WireRow, r: WireRow)
    requires Declares(ops, names) && Clean(names) && RowExpands(names, ts, row, r)
    ensures RowResolved(ops, ts, row, r)
  {
    forall c | c in row
      ensures ColumnResolved(ops, ts, c, row[c], r[c])
    {
      ColumnMeans(ops, names, ts, c, row[c], r[c]);
    }
  }

  lemma OperationMeans(ops: seq<WireOperation>, names: Names, schema: TableSchemas, op: WireOperation, r: WireOperation)
    requires Declares(ops, names) && Clean(names) && OperationExpands(names, schema, Unnamed(op), r)
    ensures OperationResolved(ops, schema, op, r)
  {
    var ts := schema[op.table];
    OperandsMean(ops, names, ts, op.where, r.where);
    OperandsMean(ops, names, ts, op.mutations, r.mutations);
    RowMeans(ops, names, ts, op.row, r.row);
    forall i | 0 <= i < |op.rows|
      ensures RowResolved(ops, ts, op.rows[i], r.rows[i])
    {
      RowMeans(ops, names, ts, op.rows[i], r.rows[i]);
    }
  }

  /** Unless names look like UUIDs, every operation has its values resolved. */
  lemma AllResolved(ops: seq<WireOperation>, names: Names, schema: TableSchemas, r: seq<WireOperation>)
    requires ValidInserts(ops) && Declares(ops, names) && |r| == |ops|
    requires forall i :: 0 <= i < |ops| ==> OperationExpands(names, schema, Unnamed(ops[i]), r[i])
    ensures PlainNames(ops) ==> forall i :: 0 <= i < |ops| ==> OperationResolved(ops, schema, ops[i], r[i])
  {
    if PlainNames(ops) {
      NamesClean(ops, names);
      forall i | 0 <= i < |ops|
        ensures OperationResolved(ops, schema, ops[i], r[i])
      {
        OperationMeans(ops, names, schema, ops[i], r[i]);
      }
    }
  }

  /** `ExpandNamedUUIDs`: it succeeds exactly when the inserts have valid UUIDs, no name is given to
      two of them and all tables and columns are known; then every operation has the names of all
      inserts, earlier or later, replaced. */
  method ExpandNamedUUIDs(ops: seq<WireOperation>, schema: TableSchemas) returns (r: Result<seq<WireOperation>, ExpandError>, ghost names: Names)
    ensures r.Ok? <==> ValidInserts(ops) && OneUuidEach(ops) && forall i :: 0 <= i < |ops| ==> Known(schema, ops[i])
    ensures r.Ok? ==> Declares(ops, names) && |r.value| == |ops|
    ensures r.Ok? ==> forall i :: 0 <= i < |ops| ==> OperationExpands(names, schema, Unnamed(ops[i]), r.value[i])
    ensures r.Ok? && PlainNames(ops) ==> forall i :: 0 <= i < |ops| ==> OperationResolved(ops, schema, ops[i], r.value[i])
  {
    var collected := CollectNames(ops);
    names := map[];
    if collected.Err? {
      return Err(collected.error), names;
    }
    var (ops', known) := collected.value;
    names := known;
    for i := 0 to |ops|
      invariant |ops'| == |ops|
      invariant forall j :: i <= j < |ops| ==> ops'[j] == Unnamed(ops[j])
      invariant forall j :: 0 <= j < i ==> Known(schema, ops[j]) && OperationExpands(known, schema, Unnamed(ops[j]), ops'[j])
    {
      var one := ExpandOperation(known, schema, ops'[i]);
      assert Known(schema, ops'[i]) <==> Known(schema, ops[i]);
      if one.Err? {
        return Err(one.error), names;
      }
      ops' := ops'[i := one.value];
    }
    AllResolved(ops, names, schema, ops');
    return Ok(ops'), names;
  }
}
