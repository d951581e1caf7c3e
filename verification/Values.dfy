/** Column values, schemas and rows of an OVSDB database.

    A row is modelled as a map from column name to a typed value.  A column set is a
    duplicate-free slice in the source and a mathematical set here; a nil slice or map is the
    empty one.  The `_uuid` column is the key under which a row is stored, never a column of
    the row itself. */
module Values {

  type Uuid = string
  type Table = string
  type Column = string

  datatype Option<+T> = None | Some(value: T)

  datatype Result<+T, +E> = Ok(value: T) | Err(error: E)

  datatype Atom =
    | IntAtom(i: int)
    | RealAtom(r: real)
    | BoolAtom(b: bool)
    | StrAtom(s: string)
    | UuidAtom(u: Uuid)

  datatype AtomType = IntType | RealType | BoolType | StrType | UuidType

  datatype Value =
    | AtomValue(a: Atom)
    | OptValue(o: Option<Atom>)
    | SetValue(s: set<Atom>)
    | MapValue(m: map<Atom, Atom>)

  /** The extended types of a column: an atom (or enum), an optional (a set with min 0 and
      max 1), a set of several values, or a map. */
  datatype Kind =
    | AtomKind(t: AtomType)
    | OptKind(t: AtomType)
    | SetKind(t: AtomType, min: nat)
    | MapKind(k: AtomType, v: AtomType)

  /** `refTable` is the table a UUID column refers to, or "" when it refers to none;
      `strong` tells a strong reference from a weak one, and `enum` a column with listed values. */
  datatype ColumnSchema = ColumnSchema(kind: Kind, mutable: bool, refTable: Table, strong: bool, enum: bool)

  type TableSchema = map<Column, ColumnSchema>

  /** A row in native form, with a value for every column of its table. */
  type Model = map<Column, Value>

  /** A row in OVSDB notation, where default values are left out. */
  type Row = map<Column, Value>

  const NIL_UUID: Uuid := "00000000-0000-0000-0000-000000000000"

  predicate AtomHasType(a: Atom, t: AtomType) {
    match t
    case IntType => a.IntAtom?
    case RealType => a.RealAtom?
    case BoolType => a.BoolAtom?
    case StrType => a.StrAtom?
    case UuidType => a.UuidAtom?
  }

  predicate HasKind(v: Value, k: Kind) {
    match k
    case AtomKind(t) => v.AtomValue? && AtomHasType(v.a, t)
    case OptKind(t) => v.OptValue? && (v.o.Some? ==> AtomHasType(v.o.value, t))
    case SetKind(t, _) => v.SetValue? && forall a :: a in v.s ==> AtomHasType(a, t)
    case MapKind(kt, vt) =>
      v.MapValue? && forall k :: k in v.m ==> AtomHasType(k, kt) && AtomHasType(v.m[k], vt)
  }

  predicate SameKind(v: Value, w: Value) {
    || (v.AtomValue? && w.AtomValue?)
    || (v.OptValue? && w.OptValue?)
    || (v.SetValue? && w.SetValue?)
    || (v.MapValue? && w.MapValue?)
  }

  predicate IsDefaultAtom(a: Atom) {
    match a
    case IntAtom(i) => i == 0
    case RealAtom(r) => r == 0.0
    case BoolAtom(_) => false
    case StrAtom(s) => s == ""
    case UuidAtom(u) => u == "" || u == NIL_UUID
  }

  /** Default values are the ones left out of a row in OVSDB notation. */
  predicate IsDefault(v: Value) {
    match v
    case AtomValue(a) => IsDefaultAtom(a)
    case OptValue(o) => o.None?
    case SetValue(s) => s == {}
    case MapValue(m) => m == map[]
  }

  function ZeroAtom(t: AtomType): Atom {
    match t
    case IntType => IntAtom(0)
    case RealType => RealAtom(0.0)
    case BoolType => BoolAtom(false)
    case StrType => StrAtom("")
    case UuidType => UuidAtom("")
  }

  function AtomTypeOf(a: Atom): AtomType {
    match a
    case IntAtom(_) => IntType
    case RealAtom(_) => RealType
    case BoolAtom(_) => BoolType
    case StrAtom(_) => StrType
    case UuidAtom(_) => UuidType
  }

  /** The zero value of the type of `v`. */
  function ZeroLike(v: Value): Value {
    match v
    case AtomValue(a) => AtomValue(ZeroAtom(AtomTypeOf(a)))
    case OptValue(_) => OptValue(None)
    case SetValue(_) => SetValue({})
    case MapValue(_) => MapValue(map[])
  }

  function ZeroOf(k: Kind): Value {
    match k
    case AtomKind(t) => AtomValue(ZeroAtom(t))
    case OptKind(_) => OptValue(None)
    case SetKind(_, _) => SetValue({})
    case MapKind(_, _) => MapValue(map[])
  }

  predicate TypedModel(ts: TableSchema, m: Model) {
    m.Keys == ts.Keys && forall c :: c in ts ==> HasKind(m[c], ts[c].kind)
  }

  /** A column value is normal when it is not the all-zero UUID, the one default value that is
      not the zero value of its type. */
  predicate NormalValue(v: Value) {
    IsDefault(v) ==> v == ZeroLike(v)
  }

  predicate Normal(m: Model) {
    forall c :: c in m ==> NormalValue(m[c])
  }

  predicate ValidModel(ts: TableSchema, m: Model) {
    TypedModel(ts, m) && Normal(m)
  }

  /** The row of a model, without its default values. */
  function RowOf(m: Model): Row {
    map c | c in m && !IsDefault(m[c]) :: m[c]
  }

  /** The model read back from a row: columns that are absent take their zero value. */
  function ModelOf(ts: TableSchema, row: Row): Model {
    map c | c in ts :: if c in row then row[c] else ZeroOf(ts[c].kind)
  }

  lemma RowRoundTrip(ts: TableSchema, m: Model)
    requires TypedModel(ts, m)
    ensures ModelOf(ts, RowOf(m)) == m <==> forall c :: c in m && IsDefault(m[c]) ==> m[c] == ZeroLike(m[c])
  {
    forall c | c in m
      ensures ZeroLike(m[c]) == ZeroOf(ts[c].kind)
    {
      assert c in ts;
      assert HasKind(m[c], ts[c].kind);
    }
    var back := ModelOf(ts, RowOf(m));
    if forall c :: c in m && IsDefault(m[c]) ==> m[c] == ZeroLike(m[c]) {
      assert forall c :: c in m ==> back[c] == m[c];
    } else {
      var c :| c in m && IsDefault(m[c]) && m[c] != ZeroLike(m[c]);
      assert back[c] != m[c];
    }
  }

  /** Kinds that differ in more than their least number of elements have at most the empty set, the
      empty map or the unset optional in common, and every atom has its own type and no other. */
  lemma KindsApart(v: Value, k: Kind, k': Kind)
    requires HasKind(v, k) && HasKind(v, k') && v !in {OptValue(None), SetValue({}), MapValue(map[])}
    ensures k == k' || (k.SetKind? && k'.SetKind? && k.t == k'.t)
  {
    if v.SetValue? {
      assert v.s != {};
      var a :| a in v.s;
      AtomTypesApart(a, k.t, k'.t);
    } else if v.MapValue? {
      assert v.m.Keys != {};
      var x :| x in v.m.Keys;
      AtomTypesApart(x, k.k, k'.k);
      AtomTypesApart(v.m[x], k.v, k'.v);
    }
  }

  lemma AtomTypesApart(a: Atom, t: AtomType, t': AtomType)
    requires AtomHasType(a, t) && AtomHasType(a, t')
    ensures t == t' == AtomTypeOf(a)
  {
  }
}
