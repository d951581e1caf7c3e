/** Column values on the wire (ovsdb/bindings.go, ovsdb/set.go, ovsdb/map.go, ovsdb/notation.go,
    ovsdb/uuid.go): native values to OVSDB notation, to JSON, and back. */
module Notation {
  import opened Values
  import opened NamedUuid

  /** A JSON value, as far as column values go. */
  datatype Json = Num(n: real) | Bool(b: bool) | Str(s: string) | Arr(items: seq<Json>)

  /** An element in OVSDB notation: an atom, or something nested that no column can hold. */
  datatype Elem = Known(a: Atom) | Other

  /** A value in OVSDB notation. */
  datatype Ovs = Bare(e: Elem) | OvsSet(es: seq<Elem>) | OvsMap(m: map<Elem, Elem>)

  /** A native value; the native form of a UUID is a string. */
  datatype Native =
    | One(a: Atom)
    | Pointer(o: Option<Atom>)
    | Slice(s: seq<Atom>)
    | Map(m: map<Atom, Atom>)

  datatype NotationError = WrongType | Panics

  // ---- atoms ----

  predicate NativeAtom(t: AtomType, a: Atom) {
    AtomHasType(a, if t == UuidType then StrType else t)
  }

  function NativeToOvsAtomic(t: AtomType, a: Atom): (e: Elem)
    requires NativeAtom(t, a)
  {
    if t == UuidType then Known(UuidAtom(a.s)) else Known(a)
  }

  /** Conversion of a floating point number to an integer. */
  function Truncated(r: real): int {
    if r >= 0.0 then r.Floor else -((-r).Floor)
  }

  function OvsToNativeAtomic(t: AtomType, e: Elem): (r: Result<Atom, NotationError>)
    ensures r.Ok? ==> NativeAtom(t, r.value)
  {
    match (t, e)
    case (RealType, Known(RealAtom(_))) => Ok(e.a)
    case (StrType, Known(StrAtom(_))) => Ok(e.a)
    case (BoolType, Known(BoolAtom(_))) => Ok(e.a)
    case (IntType, Known(IntAtom(_))) => Ok(e.a)
    case (IntType, Known(RealAtom(x))) => Ok(IntAtom(Truncated(x)))
    case (UuidType, Known(UuidAtom(u))) => Ok(StrAtom(u))
    case _ => Err(WrongType)
  }

  function MarshalAtom(a: Atom): Json {
    match a
    case IntAtom(i) => Num(Whole(i))
    case RealAtom(r) => Num(r)
    case BoolAtom(b) => Bool(b)
    case StrAtom(s) => Str(s)
    case UuidAtom(u) => Arr([Str(if ValidUuid(u) then "uuid" else "named-uuid"), Str(u)])
  }

  predicate UuidTag(j: Json) {
    j == Str("uuid") || j == Str("named-uuid")
  }

  /** A tagged UUID; an array that holds anything but strings leaves the UUID empty. */
  function UnmarshalUuid(items: seq<Json>): Result<Elem, NotationError> {
    if exists i :: 0 <= i < |items| && !items[i].Str? then Ok(Known(UuidAtom("")))
    else if |items| < 2 then Err(Panics)
    else Ok(Known(UuidAtom(items[1].s)))
  }

  /** An element of a set or map; numbers become floating point numbers.  A set or map inside is
      read like any other, but no column can take what it gives. */
  function UnmarshalElem(f: real -> real, j: Json): Result<Elem, NotationError>
    decreases j, 0
  {
    match j
    case Num(n) => Ok(Known(RealAtom(f(n))))
    case Bool(b) => Ok(Known(BoolAtom(b)))
    case Str(s) => Ok(Known(StrAtom(s)))
    case Arr(items) =>
      if items == [] then Err(Panics)
      else if UuidTag(items[0]) then UnmarshalUuid(items)
      else if items[0] == Str("set") then
        if |items| < 2 || !items[1].Arr? then Err(Panics)
        else Nested(ElemsError(f, items[1], |items[1].items|))
      else if items[0] == Str("map") then
        if |items| == 1 then Ok(Other)
        else if !items[1].Arr? then Err(Panics)
        else Nested(PairsError(f, items[1], |items[1].items|))
      else Ok(Other)
  }

  function Nested(e: Option<NotationError>): Result<Elem, NotationError> {
    if e.None? then Ok(Other) else Err(e.value)
  }

  /** The first error among the first `n` elements of an array. */
  function ElemsError(f: real -> real, j: Json, n: nat): Option<NotationError>
    requires j.Arr? && n <= |j.items|
    decreases j, n
  {
    if n == 0 then None
    else
      var earlier := ElemsError(f, j, n - 1);
      if earlier.Some? then earlier
      else
        var e := UnmarshalElem(f, j.items[n - 1]);
        if e.Err? then Some(e.error) else None
  }

  /** A key or value of a map; an array in its place has to have two elements. */
  function UnmarshalPart(f: real -> real, j: Json): Result<Elem, NotationError>
    decreases j, 1
  {
    if j.Arr? && (|j.items| != 2 || j.items[0] == Str("map")) then Err(WrongType) else UnmarshalElem(f, j)
  }

  /** What goes wrong with a pair, if anything; something nested cannot be a key. */
  function PairError(f: real -> real, p: Json): Option<NotationError>
    decreases p, 0
  {
    if !p.Arr? || |p.items| == 0 then Some(Panics)
    else
      var k := UnmarshalPart(f, p.items[0]);
      if k.Err? then Some(k.error)
      else if |p.items| < 2 then Some(Panics)
      else
        var v := UnmarshalPart(f, p.items[1]);
        if v.Err? then Some(v.error) else if k.value.Other? then Some(Panics) else None
  }

  /** The first error among the first `n` pairs of an array. */
  function PairsError(f: real -> real, j: Json, n: nat): Option<NotationError>
    requires j.Arr? && n <= |j.items|
    decreases j, n
  {
    if n == 0 then None
    else
      var earlier := PairsError(f, j, n - 1);
      if earlier.Some? then earlier else PairError(f, j.items[n - 1])
  }

  function Whole(i: int): real {
    i as real
  }

  const TWO_53 := 0x20_0000_0000_0000

  /** Rounding to floating point numbers: exact on small integers, whole on all integers, and
      nothing is rounded twice. */
  ghost predicate Float64(f: real -> real) {
    && (forall i: int :: -TWO_53 <= i <= TWO_53 ==> f(Whole(i)) == Whole(i))
    && (forall i: int :: f(Whole(i)) == Whole(f(Whole(i)).Floor))
    && (forall x: real :: f(f(x)) == f(x))
  }

  /** What comes back of an atom. */
  function Landed(f: real -> real, a: Atom): Atom {
    match a
    case IntAtom(i) => IntAtom(Truncated(f(Whole(i))))
    case RealAtom(x) => RealAtom(f(x))
    case _ => a
  }

  lemma AtomTravels(f: real -> real, t: AtomType, a: Atom)
    requires NativeAtom(t, a)
    ensures var e := UnmarshalElem(f, MarshalAtom(NativeToOvsAtomic(t, a).a));
      e.Ok? && e.value.Known? && OvsToNativeAtomic(t, e.value) == Ok(Landed(f, a))
  {
  }

  lemma LandedOnce(f: real -> real, a: Atom)
    requires Float64(f)
    ensures Landed(f, Landed(f, a)) == Landed(f, a)
    ensures a.IntAtom? && -TWO_53 <= a.i <= TWO_53 ==> Landed(f, a) == a
  {
    if a.IntAtom? {
      var x := f(Whole(a.i));
      assert x == Whole(x.Floor);
      WholeTruncated(x.Floor);
      WholeTruncated(a.i);
      assert f(x) == x;
    }
  }

  lemma WholeTruncated(i: int)
    ensures Truncated(Whole(i)) == i
  {
    if i < 0 {
      assert -Whole(i) == Whole(-i);
    }
  }

  /** A number where an integer is expected becomes the nearest integer towards zero. */
  lemma TruncatedMeans(r: real)
    ensures var i := Truncated(r) as real; if r >= 0.0 then i <= r < i + 1.0 && i >= 0.0 else i - 1.0 < r <= i && i <= 0.0
  {
  }

  /** What a column takes of an atom: one of its own type, and a number for an integer. */
  lemma AtomTaken(t: AtomType, a: Atom)
    ensures OvsToNativeAtomic(t, Known(a)).Ok? <==> AtomHasType(a, t) || (t == IntType && a.RealAtom?)
    ensures AtomHasType(a, t) ==> OvsToNativeAtomic(t, Known(a)) == Ok(if a.UuidAtom? then StrAtom(a.u) else a)
    ensures OvsToNativeAtomic(t, Other) == Err(WrongType)
  {
  }

  /** What is read of an array that begins with a UUID tag: the string that follows; nothing at all
      when there is anything but strings, and a panic when there is the tag alone. */
  lemma UuidRead(f: real -> real, tag: string, rest: seq<Json>)
    requires tag == "uuid" || tag == "named-uuid"
    ensures var r := UnmarshalElem(f, Arr([Str(tag)] + rest));
      && (rest == [] <==> r == Err(Panics))
      && (rest != [] ==> r.Ok? && r.value.Known? && r.value.a.UuidAtom?)
      && (rest != [] && (forall i :: 0 <= i < |rest| ==> rest[i].Str?) ==> rest[0] == Str(r.value.a.u))
      && ((exists i :: 0 <= i < |rest| && !rest[i].Str?) ==> r.value.a.u == "")
  {
    var items := [Str(tag)] + rest;
    assert forall i :: 0 <= i < |rest| ==> items[i + 1] == rest[i];
    assert forall i :: 0 < i < |items| ==> items[i] == rest[i - 1];
  }

  // ---- native to OVSDB notation ----

  /** The native types of a column. */
  predicate WellTyped(k: Kind, v: Native) {
    match k
    case AtomKind(t) => v.One? && NativeAtom(t, v.a)
    case OptKind(t) => v.Pointer? && (v.o.Some? ==> NativeAtom(t, v.o.value))
    case SetKind(t, _) => v.Slice? && forall i :: 0 <= i < |v.s| ==> NativeAtom(t, v.s[i])
    case MapKind(kt, vt) => v.Map? && forall x :: x in v.m ==> NativeAtom(kt, x) && NativeAtom(vt, v.m[x])
  }

  /** `o` is the set of the elements of `s`. */
  ghost predicate ElemsOf(t: AtomType, s: seq<Atom>, es: seq<Elem>) {
    |es| == |s| && forall i :: 0 <= i < |s| ==> NativeAtom(t, s[i]) && es[i] == NativeToOvsAtomic(t, s[i])
  }

  ghost predicate EntriesOf(kt: AtomType, vt: AtomType, m: map<Atom, Atom>, es: map<Elem, Elem>) {
    && (forall x :: x in m ==> EntryIn(kt, vt, es, x, m[x]))
    && (forall e :: e in es ==> exists x :: x in m && NativeAtom(kt, x) && NativeToOvsAtomic(kt, x) == e)
  }

  predicate EntryIn(kt: AtomType, vt: AtomType, es: map<Elem, Elem>, x: Atom, y: Atom) {
    && NativeAtom(kt, x) && NativeAtom(vt, y)
    && NativeToOvsAtomic(kt, x) in es && es[NativeToOvsAtomic(kt, x)] == NativeToOvsAtomic(vt, y)
  }

  /** `o` is the OVSDB notation of `v`. */
  ghost predicate Denotes(k: Kind, v: Native, o: Ovs) {
    match k
    case AtomKind(t) => v.One? && NativeAtom(t, v.a) && o == Bare(NativeToOvsAtomic(t, v.a))
    case OptKind(t) => v.Pointer? && o.OvsSet? && ElemsOf(t, if v.o.Some? then [v.o.value] else [], o.es)
    case SetKind(t, _) => v.Slice? && o.OvsSet? && ElemsOf(t, v.s, o.es)
    case MapKind(kt, vt) => v.Map? && o.OvsMap? && EntriesOf(kt, vt, v.m, o.m)
  }

  method NewSet(t: AtomType, s: seq<Atom>) returns (es: seq<Elem>)
    requires forall i :: 0 <= i < |s| ==> NativeAtom(t, s[i])
    ensures ElemsOf(t, s, es)
  {
    es := [];
    for i := 0 to |s|
      invariant |es| == i && forall j :: 0 <= j < i ==> es[j] == NativeToOvsAtomic(t, s[j])
    {
      es := es + [NativeToOvsAtomic(t, s[i])];
    }
  }

  method NewMap(kt: AtomType, vt: AtomType, m: map<Atom, Atom>) returns (es: map<Elem, Elem>)
    requires forall x :: x in m ==> NativeAtom(kt, x) && NativeAtom(vt, m[x])
    ensures EntriesOf(kt, vt, m, es)
  {
    es := map[];
    var todo := m.Keys;
    while todo != {}
      invariant todo <= m.Keys
      invariant forall x :: x in m && x !in todo ==>
        NativeToOvsAtomic(kt, x) in es && es[NativeToOvsAtomic(kt, x)] == NativeToOvsAtomic(vt, m[x])
      invariant forall e :: e in es ==> exists x :: x in m && x !in todo && NativeToOvsAtomic(kt, x) == e
      decreases todo
    {
      var x :| x in todo;
      es := es[NativeToOvsAtomic(kt, x) := NativeToOvsAtomic(vt, m[x])];
      todo := todo - {x};
    }
  }

  /** `NativeToOvs`: refuses exactly the values that do not have the native type of the column. */
  method NativeToOvs(k: Kind, v: Native) returns (r: Result<Ovs, NotationError>)
    ensures r.Ok? <==> WellTyped(k, v)
    ensures r.Ok? ==> Denotes(k, v, r.value)
  {
    if !WellTyped(k, v) {
      return Err(WrongType);
    }
    match k
    case AtomKind(t) =>
      return Ok(Bare(NativeToOvsAtomic(t, v.a)));
    case OptKind(t) =>
      var es := NewSet(t, if v.o.Some? then [v.o.value] else []);
      return Ok(OvsSet(es));
    case SetKind(t, _) =>
      var es := NewSet(t, v.s);
      return Ok(OvsSet(es));
    case MapKind(kt, vt) =>
      var m := NewMap(kt, vt, v.m);
      return Ok(OvsMap(m));
  }

  // ---- OVSDB notation to JSON ----

  predicate AllKnown(o: Ovs) {
    match o
    case Bare(e) => e.Known?
    case OvsSet(es) => forall i :: 0 <= i < |es| ==> es[i].Known?
    case OvsMap(m) => forall e :: e in m ==> e.Known? && m[e].Known?
  }

  function MarshalPair(e: Elem, v: Elem): Json
    requires e.Known? && v.Known?
  {
    Arr([MarshalAtom(e.a), MarshalAtom(v.a)])
  }

  /** The pairs of a map in some order. */
  ghost predicate Enumerates(m: map<Elem, Elem>, ps: seq<Json>)
    requires AllKnown(OvsMap(m))
  {
    Covers(m, ps) && Only(m, ps) && |ps| == |m|
  }

  ghost predicate Covers(m: map<Elem, Elem>, ps: seq<Json>)
    requires AllKnown(OvsMap(m))
  {
    forall e :: e in m ==> MarshalPair(e, m[e]) in ps
  }

  ghost predicate Only(m: map<Elem, Elem>, ps: seq<Json>)
    requires AllKnown(OvsMap(m))
  {
    forall i :: 0 <= i < |ps| ==> PairOf(m, ps[i])
  }

  ghost predicate PairOf(m: map<Elem, Elem>, p: Json)
    requires AllKnown(OvsMap(m))
  {
    exists e :: e in m && p == MarshalPair(e, m[e])
  }

  /** `j` is the JSON form of `o`: a set of one element is written as that element alone. */
  ghost predicate Marshals(o: Ovs, j: Json) {
    AllKnown(o) &&
    match o
    case Bare(e) => j == MarshalAtom(e.a)
    case OvsSet(es) =>
      if |es| == 1 then j == MarshalAtom(es[0].a)
      else j == Arr([Str("set"), Arr(seq(|es|, i requires 0 <= i < |es| => MarshalAtom(es[i].a)))])
    case OvsMap(m) => j.Arr? && |j.items| == 2 && j.items[0] == Str("map") && j.items[1].Arr? && Enumerates(m, j.items[1].items)
  }

  method MarshalMap(m: map<Elem, Elem>) returns (ps: seq<Json>)
    requires AllKnown(OvsMap(m))
    ensures Enumerates(m, ps)
  {
    ps := [];
    var todo := m.Keys;
    while todo != {}
      invariant todo <= m.Keys && |ps| + |todo| == |m|
      invariant forall e :: e in m && e !in todo ==> MarshalPair(e, m[e]) in ps
      invariant forall i :: 0 <= i < |ps| ==> PairOf(m, ps[i])
      decreases todo
    {
      var e :| e in todo;
      ps := ps + [MarshalPair(e, m[e])];
      todo := todo - {e};
    }
  }

  method Marshal(o: Ovs) returns (j: Json)
    requires AllKnown(o)
    ensures Marshals(o, j)
  {
    match o
    case Bare(e) =>
      return MarshalAtom(e.a);
    case OvsSet(es) =>
      if |es| == 1 {
        return MarshalAtom(es[0].a);
      }
      var inner := [];
      for i := 0 to |es|
        invariant |inner| == i && forall k :: 0 <= k < i ==> inner[k] == MarshalAtom(es[k].a)
      {
        inner := inner + [MarshalAtom(es[i].a)];
      }
      assert inner == seq(|es|, i requires 0 <= i < |es| => MarshalAtom(es[i].a));
      return Arr([Str("set"), Arr(inner)]);
    case OvsMap(m) =>
      var ps := MarshalMap(m);
      return Arr([Str("map"), Arr(ps)]);
  }

  // ---- the notation of section 5.1 of RFC 7047 ----

  ghost predicate Hex(s: string, n: nat) {
    |s| == n && forall i :: 0 <= i < n ==> '0' <= s[i] <= '9' || 'a' <= s[i] <= 'f'
  }

  /** The text of a UUID: five groups of hexadecimal digits with dashes between them. */
  ghost predicate UuidText(s: string) {
    exists a, b, c, d, e ::
      Hex(a, 8) && Hex(b, 4) && Hex(c, 4) && Hex(d, 4) && Hex(e, 12) && s == Dashed(a, b, c, d, e)
  }

  function Dashed(a: string, b: string, c: string, d: string, e: string): string {
    a + "-" + b + "-" + c + "-" + d + "-" + e
  }

  lemma DashedAt(a: string, b: string, c: string, d: string, e: string)
    requires Hex(a, 8) && Hex(b, 4) && Hex(c, 4) && Hex(d, 4) && Hex(e, 12)
    ensures ValidUuid(Dashed(a, b, c, d, e))
  {
    var s := Dashed(a, b, c, d, e);
    assert s[..8] == a && s[9..13] == b && s[14..18] == c && s[19..23] == d && s[24..] == e;
    forall i | 0 <= i < 36
      ensures if i in {8, 13, 18, 23} then s[i] == '-' else HexDigit(s[i])
    {
      assert 0 <= i < 8 ==> s[i] == a[i];
      assert 9 <= i < 13 ==> s[i] == b[i - 9];
      assert 14 <= i < 18 ==> s[i] == c[i - 14];
      assert 19 <= i < 23 ==> s[i] == d[i - 19];
      assert 24 <= i < 36 ==> s[i] == e[i - 24];
    }
  }

  lemma ValidIsText(s: string)
    ensures ValidUuid(s) <==> UuidText(s)
  {
    if ValidUuid(s) {
      assert s == Dashed(s[..8], s[9..13], s[14..18], s[19..23], s[24..]);
    } else if UuidText(s) {
      var a, b, c, d, e :| Hex(a, 8) && Hex(b, 4) && Hex(c, 4) && Hex(d, 4) && Hex(e, 12) && s == Dashed(a, b, c, d, e);
      DashedAt(a, b, c, d, e);
    }
  }

  /** `<atom>`: a number, a boolean, a string, a `<uuid>` or a `<named-uuid>`. */
  ghost predicate AtomForm(t: AtomType, a: Atom, j: Json) {
    match (t, a)
    case (IntType, IntAtom(i)) => j.Num? && j.n == i as real
    case (RealType, RealAtom(r)) => j == Num(r)
    case (BoolType, BoolAtom(b)) => j == Bool(b)
    case (StrType, StrAtom(s)) => j == Str(s)
    case (UuidType, StrAtom(u)) => if UuidText(u) then j == Arr([Str("uuid"), Str(u)]) else j == Arr([Str("named-uuid"), Str(u)])
    case _ => false
  }

  /** `<set>`: an `<atom>`, or "set" and the elements. */
  ghost predicate SetForm(t: AtomType, s: seq<Atom>, j: Json) {
    if |s| == 1 then AtomForm(t, s[0], j)
    else
      && j.Arr? && |j.items| == 2 && j.items[0] == Str("set") && j.items[1].Arr? && |j.items[1].items| == |s|
      && forall i :: 0 <= i < |s| ==> AtomForm(t, s[i], j.items[1].items[i])
  }

  ghost predicate PairForm(kt: AtomType, vt: AtomType, x: Atom, y: Atom, p: Json) {
    p.Arr? && |p.items| == 2 && AtomForm(kt, x, p.items[0]) && AtomForm(vt, y, p.items[1])
  }

  /** `<map>`: "map" and the pairs. */
  ghost predicate MapForm(kt: AtomType, vt: AtomType, m: map<Atom, Atom>, j: Json) {
    && j.Arr? && |j.items| == 2 && j.items[0] == Str("map") && j.items[1].Arr?
    && (forall x :: x in m ==> Listed(kt, vt, x, m[x], j.items[1].items))
    && (forall i :: 0 <= i < |j.items[1].items| ==> EntryForm(kt, vt, m, j.items[1].items[i]))
  }

  ghost predicate Listed(kt: AtomType, vt: AtomType, x: Atom, y: Atom, ps: seq<Json>) {
    exists i :: 0 <= i < |ps| && PairForm(kt, vt, x, y, ps[i])
  }

  ghost predicate EntryForm(kt: AtomType, vt: AtomType, m: map<Atom, Atom>, p: Json) {
    exists x :: x in m && PairForm(kt, vt, x, m[x], p)
  }

  /** `<value>`. */
  ghost predicate ValueForm(k: Kind, v: Native, j: Json) {
    match (k, v)
    case (AtomKind(t), One(a)) => AtomForm(t, a, j)
    case (OptKind(t), Pointer(o)) => SetForm(t, if o.Some? then [o.value] else [], j)
    case (SetKind(t, _), Slice(s)) => SetForm(t, s, j)
    case (MapKind(kt, vt), Map(m)) => MapForm(kt, vt, m, j)
    case _ => false
  }

  lemma AtomWritten(t: AtomType, a: Atom)
    requires NativeAtom(t, a)
    ensures AtomForm(t, a, MarshalAtom(NativeToOvsAtomic(t, a).a))
  {
    if t == UuidType {
      ValidIsText(a.s);
    }
  }

  lemma SetWritten(t: AtomType, s: seq<Atom>, es: seq<Elem>, j: Json)
    requires ElemsOf(t, s, es) && Marshals(OvsSet(es), j)
    ensures SetForm(t, s, j)
  {
    forall i | 0 <= i < |s|
      ensures AtomForm(t, s[i], MarshalAtom(es[i].a))
    {
      AtomWritten(t, s[i]);
    }
  }

  lemma MapWritten(kt: AtomType, vt: AtomType, m: map<Atom, Atom>, es: map<Elem, Elem>, ps: seq<Json>)
    requires EntriesOf(kt, vt, m, es) && AllKnown(OvsMap(es)) && Covers(es, ps) && Only(es, ps)
    ensures forall x :: x in m ==> Listed(kt, vt, x, m[x], ps)
    ensures forall i :: 0 <= i < |ps| ==> EntryForm(kt, vt, m, ps[i])
  {
    forall x | x in m
      ensures Listed(kt, vt, x, m[x], ps)
    {
      var e := PairWritten(kt, vt, m, es, x);
      assert MarshalPair(e, es[e]) in ps;
    }
    EntriesSourced(kt, vt, m, es);
    forall i | 0 <= i < |ps|
      ensures EntryForm(kt, vt, m, ps[i])
    {
      assert PairOf(es, ps[i]);
      EntryWritten(kt, vt, m, es, ps[i]);
    }
  }

  lemma EntryWritten(kt: AtomType, vt: AtomType, m: map<Atom, Atom>, es: map<Elem, Elem>, p: Json)
    requires EntriesOf(kt, vt, m, es) && Sourced(kt, vt, m, es) && AllKnown(OvsMap(es)) && PairOf(es, p)
    ensures EntryForm(kt, vt, m, p)
  {
    var e :| e in es && p == MarshalPair(e, es[e]);
    var x :| x in m && EntryIn(kt, vt, es, x, m[x]) && NativeToOvsAtomic(kt, x) == e;
    var e' := PairWritten(kt, vt, m, es, x);
  }

  lemma PairWritten(kt: AtomType, vt: AtomType, m: map<Atom, Atom>, es: map<Elem, Elem>, x: Atom) returns (e: Elem)
    requires EntriesOf(kt, vt, m, es) && AllKnown(OvsMap(es)) && x in m
    ensures NativeAtom(kt, x) && e == NativeToOvsAtomic(kt, x)
    ensures e in es && PairForm(kt, vt, x, m[x], MarshalPair(e, es[e]))
  {
    assert EntryIn(kt, vt, es, x, m[x]);
    e := NativeToOvsAtomic(kt, x);
    AtomWritten(kt, x);
    AtomWritten(vt, m[x]);
  }

  /** What is sent of a native value is its `<value>` in the notation of RFC 7047: a UUID is a
      `<uuid>` and anything else in its place a `<named-uuid>`, and every element, key and value
      is there. */
  lemma WireForm(k: Kind, v: Native, o: Ovs, j: Json)
    requires Denotes(k, v, o) && Marshals(o, j)
    ensures ValueForm(k, v, j)
    ensures k.MapKind? ==> |j.items[1].items| == |o.m|
  {
    match k
    case AtomKind(t) => AtomWritten(t, v.a);
    case OptKind(t) => SetWritten(t, if v.o.Some? then [v.o.value] else [], o.es, j);
    case SetKind(t, _) => SetWritten(t, v.s, o.es, j);
    case MapKind(kt, vt) => MapWritten(kt, vt, v.m, o.m, j.items[1].items);
  }

  // ---- JSON to OVSDB notation ----

  /** A pair that can be read; something nested cannot be a key. */
  predicate Readable(f: real -> real, p: Json) {
    && p.Arr? && |p.items| >= 2
    && UnmarshalPart(f, p.items[0]).Ok? && UnmarshalPart(f, p.items[0]).value.Known?
    && UnmarshalPart(f, p.items[1]).Ok?
  }

  /** The map read from pairs: each key has the value of one of its pairs. */
  ghost predicate PairsRead(f: real -> real, ps: seq<Json>, m: map<Elem, Elem>) {
    KeysRead(f, ps, m) && AllGiven(f, ps, m)
  }

  ghost predicate KeysRead(f: real -> real, ps: seq<Json>, m: map<Elem, Elem>) {
    forall i :: 0 <= i < |ps| ==> Readable(f, ps[i]) && UnmarshalPart(f, ps[i].items[0]).value in m
  }

  ghost predicate AllGiven(f: real -> real, ps: seq<Json>, m: map<Elem, Elem>) {
    forall e :: e in m ==> exists i :: 0 <= i < |ps| && PairGives(f, ps[i], e, m[e])
  }

  predicate PairGives(f: real -> real, p: Json, e: Elem, v: Elem) {
    Readable(f, p) && UnmarshalPart(f, p.items[0]) == Ok(e) && UnmarshalPart(f, p.items[1]) == Ok(v)
  }

  method UnmarshalPairs(f: real -> real, ps: seq<Json>) returns (r: Result<map<Elem, Elem>, NotationError>)
    ensures r.Ok? <==> forall i :: 0 <= i < |ps| ==> Readable(f, ps[i])
    ensures r.Ok? ==> PairsRead(f, ps, r.value)
  {
    var m: map<Elem, Elem> := map[];
    for i := 0 to |ps|
      invariant PairsRead(f, ps[..i], m)
    {
      if !ps[i].Arr? || |ps[i].items| == 0 {
        return Err(Panics);
      }
      var k := UnmarshalPart(f, ps[i].items[0]);
      if k.Err? {
        return Err(k.error);
      }
      if |ps[i].items| < 2 {
        return Err(Panics);
      }
      var v := UnmarshalPart(f, ps[i].items[1]);
      if v.Err? {
        return Err(v.error);
      }
      if k.value.Other? {
        return Err(Panics);
      }
      PairReadNext(f, ps, i, m, k.value, v.value);
      m := m[k.value := v.value];
    }
    assert ps[..|ps|] == ps;
    return Ok(m);
  }

  lemma PairReadNext(f: real -> real, ps: seq<Json>, n: nat, m: map<Elem, Elem>, k: Elem, v: Elem)
    requires n < |ps| && PairsRead(f, ps[..n], m) && PairGives(f, ps[n], k, v)
    ensures PairsRead(f, ps[..n + 1], m[k := v])
  {
    var (p, q, m') := (ps[..n], ps[..n + 1], m[k := v]);
    forall i | 0 <= i < |q|
      ensures Readable(f, q[i]) && UnmarshalPart(f, q[i].items[0]).value in m'
    {
      assert i < n ==> q[i] == p[i];
    }
    forall e | e in m'
      ensures exists i :: 0 <= i < |q| && PairGives(f, q[i], e, m'[e])
    {
      if e == k {
        assert PairGives(f, q[n], e, m'[e]);
      } else {
        var i :| 0 <= i < |p| && PairGives(f, p[i], e, m[e]);
        assert PairGives(f, q[i], e, m'[e]);
      }
    }
  }

  ghost predicate ElemsRead(f: real -> real, js: seq<Json>, es: seq<Elem>) {
    |es| == |js| && forall i :: 0 <= i < |js| ==> UnmarshalElem(f, js[i]) == Ok(es[i])
  }

  method UnmarshalElems(f: real -> real, js: seq<Json>) returns (r: Result<seq<Elem>, NotationError>)
    ensures r.Ok? <==> forall i :: 0 <= i < |js| ==> UnmarshalElem(f, js[i]).Ok?
    ensures r.Ok? ==> ElemsRead(f, js, r.value)
  {
    var es := [];
    for i := 0 to |js|
      invariant |es| == i && forall k :: 0 <= k < i ==> UnmarshalElem(f, js[k]) == Ok(es[k])
    {
      var e := UnmarshalElem(f, js[i]);
      if e.Err? {
        return Err(e.error);
      }
      es := es + [e.value];
    }
    return Ok(es);
  }

  predicate Tagged(j: Json, tag: string) {
    j.Arr? && j.items != [] && j.items[0] == Str(tag)
  }

  /** What can be read as a column value. */
  predicate Decodable(f: real -> real, j: Json) {
    if Tagged(j, "set") then
      |j.items| >= 2 && j.items[1].Arr? && forall i :: 0 <= i < |j.items[1].items| ==> UnmarshalElem(f, j.items[1].items[i]).Ok?
    else if Tagged(j, "map") then
      |j.items| == 1 || (j.items[1].Arr? && forall i :: 0 <= i < |j.items[1].items| ==> Readable(f, j.items[1].items[i]))
    else UnmarshalElem(f, j).Ok?
  }

  /** `o` is what is read from `j`. */
  ghost predicate Decodes(f: real -> real, j: Json, o: Ovs) {
    Decodable(f, j) &&
    if Tagged(j, "set") then o.OvsSet? && ElemsRead(f, j.items[1].items, o.es)
    else if Tagged(j, "map") then o.OvsMap? && PairsRead(f, if |j.items| == 1 then [] else j.items[1].items, o.m)
    else o.Bare? && UnmarshalElem(f, j) == Ok(o.e)
  }

  /** `ovsSliceToGoNotation`. */
  method Unmarshal(f: real -> real, j: Json) returns (r: Result<Ovs, NotationError>)
    ensures r.Ok? <==> Decodable(f, j)
    ensures r.Ok? ==> Decodes(f, j, r.value)
  {
    if j.Arr? && j.items != [] && j.items[0] == Str("set") {
      if |j.items| < 2 || !j.items[1].Arr? {
        return Err(Panics);
      }
      var es := UnmarshalElems(f, j.items[1].items);
      return if es.Err? then Err(es.error) else Ok(OvsSet(es.value));
    }
    if j.Arr? && j.items != [] && j.items[0] == Str("map") {
      if |j.items| == 1 {
        return Ok(OvsMap(map[]));
      }
      if !j.items[1].Arr? {
        return Err(Panics);
      }
      var m := UnmarshalPairs(f, j.items[1].items);
      return if m.Err? then Err(m.error) else Ok(OvsMap(m.value));
    }
    var e := UnmarshalElem(f, j);
    return if e.Err? then Err(e.error) else Ok(Bare(e.value));
  }

  /** A key or value of a map is read like an element of a set, but no map may stand there and no
      array of another length than two. */
  lemma PartRead(f: real -> real, j: Json)
    ensures Tagged(j, "map") ==> UnmarshalPart(f, j).Err?
    ensures j.Arr? && |j.items| != 2 ==> UnmarshalPart(f, j).Err?
    ensures !Tagged(j, "map") && (j.Arr? ==> |j.items| == 2) ==> UnmarshalPart(f, j) == UnmarshalElem(f, j)
  {
  }

  lemma {:induction false} ElemsErrorIff(f: real -> real, j: Json, n: nat)
    requires j.Arr? && n <= |j.items|
    ensures ElemsError(f, j, n).None? <==> forall i :: 0 <= i < n ==> UnmarshalElem(f, j.items[i]).Ok?
  {
    if n > 0 {
      ElemsErrorIff(f, j, n - 1);
    }
  }

  lemma {:induction false} PairsErrorIff(f: real -> real, j: Json, n: nat)
    requires j.Arr? && n <= |j.items|
    ensures PairsError(f, j, n).None? <==> forall i :: 0 <= i < n ==> Readable(f, j.items[i])
  {
    if n > 0 {
      PairsErrorIff(f, j, n - 1);
      assert PairError(f, j.items[n - 1]).None? <==> Readable(f, j.items[n - 1]);
    }
  }

  /** A set or map inside another is refused exactly when it would be refused by itself. */
  lemma NestedReadable(f: real -> real, j: Json)
    ensures UnmarshalElem(f, j).Ok? <==> Decodable(f, j)
  {
    if Tagged(j, "set") && |j.items| >= 2 && j.items[1].Arr? {
      ElemsErrorIff(f, j.items[1], |j.items[1].items|);
    } else if Tagged(j, "map") && |j.items| >= 2 && j.items[1].Arr? {
      PairsErrorIff(f, j.items[1], |j.items[1].items|);
    }
  }

  // ---- OVSDB notation to native ----

  ghost predicate NativesOf(t: AtomType, es: seq<Elem>, s: seq<Atom>) {
    |s| == |es| && forall i :: 0 <= i < |es| ==> OvsToNativeAtomic(t, es[i]) == Ok(s[i])
  }

  /** A native map of the entries; when keys become the same, it holds one of their values. */
  ghost predicate NativeEntries(kt: AtomType, vt: AtomType, es: map<Elem, Elem>, m: map<Atom, Atom>) {
    NativeKeys(kt, vt, es, m) && forall x :: x in m ==> EntryGives(kt, vt, es, x, m[x])
  }

  ghost predicate NativeKeys(kt: AtomType, vt: AtomType, es: map<Elem, Elem>, m: map<Atom, Atom>) {
    forall e :: e in es ==>
      OvsToNativeAtomic(kt, e).Ok? && OvsToNativeAtomic(vt, es[e]).Ok? && OvsToNativeAtomic(kt, e).value in m
  }

  ghost predicate EntryGives(kt: AtomType, vt: AtomType, es: map<Elem, Elem>, x: Atom, y: Atom) {
    exists e :: e in es && OvsToNativeAtomic(kt, e) == Ok(x) && OvsToNativeAtomic(vt, es[e]) == Ok(y)
  }

  /** What a column can take. */
  predicate Convertible(k: Kind, o: Ovs) {
    match k
    case AtomKind(t) => o.Bare? && OvsToNativeAtomic(t, o.e).Ok?
    case OptKind(t) =>
      || (o.Bare? && OvsToNativeAtomic(t, o.e).Ok?)
      || (o.OvsSet? && |o.es| <= 1 && (|o.es| == 1 ==> OvsToNativeAtomic(t, o.es[0]).Ok?))
    case SetKind(t, _) =>
      || (o.Bare? && OvsToNativeAtomic(t, o.e).Ok?)
      || (o.OvsSet? && forall i :: 0 <= i < |o.es| ==> OvsToNativeAtomic(t, o.es[i]).Ok?)
    case MapKind(kt, vt) =>
      o.OvsMap? && forall e :: e in o.m ==> OvsToNativeAtomic(kt, e).Ok? && OvsToNativeAtomic(vt, o.m[e]).Ok?
  }

  /** `v` is the native form of `o`. */
  ghost predicate Converts(k: Kind, o: Ovs, v: Native) {
    Convertible(k, o) &&
    match k
    case AtomKind(t) => v == One(OvsToNativeAtomic(t, o.e).value)
    case OptKind(t) => v.Pointer? && NativesOf(t, if o.Bare? then [o.e] else o.es, if v.o.Some? then [v.o.value] else [])
    case SetKind(t, _) => v.Slice? && NativesOf(t, if o.Bare? then [o.e] else o.es, v.s)
    case MapKind(kt, vt) => v.Map? && NativeEntries(kt, vt, o.m, v.m)
  }

  method OvsToNativeSlice(t: AtomType, o: Ovs) returns (r: Result<seq<Atom>, NotationError>)
    ensures r.Ok? <==> Convertible(SetKind(t, 0), o)
    ensures r.Ok? ==> NativesOf(t, if o.Bare? then [o.e] else o.es, r.value)
  {
    match o
    case Bare(e) =>
      var a := OvsToNativeAtomic(t, e);
      return if a.Err? then Err(a.error) else Ok([a.value]);
    case OvsMap(_) =>
      return Err(WrongType);
    case OvsSet(es) =>
      var s := [];
      for i := 0 to |es|
        invariant |s| == i && forall j :: 0 <= j < i ==> OvsToNativeAtomic(t, es[j]) == Ok(s[j])
      {
        var a := OvsToNativeAtomic(t, es[i]);
        if a.Err? {
          return Err(a.error);
        }
        s := s + [a.value];
      }
      return Ok(s);
  }

  method OvsToNativeMap(kt: AtomType, vt: AtomType, es: map<Elem, Elem>) returns (r: Result<map<Atom, Atom>, NotationError>)
    ensures r.Ok? <==> forall e :: e in es ==> OvsToNativeAtomic(kt, e).Ok? && OvsToNativeAtomic(vt, es[e]).Ok?
    ensures r.Ok? ==> NativeEntries(kt, vt, es, r.value)
  {
    var m: map<Atom, Atom> := map[];
    var todo := es.Keys;
    while todo != {}
      invariant todo <= es.Keys
      invariant forall e :: e in es && e !in todo ==>
        OvsToNativeAtomic(kt, e).Ok? && OvsToNativeAtomic(vt, es[e]).Ok? && OvsToNativeAtomic(kt, e).value in m
      invariant forall x :: x in m ==> EntryGives(kt, vt, es, x, m[x])
      decreases todo
    {
      var e :| e in todo;
      var k := OvsToNativeAtomic(kt, e);
      if k.Err? {
        return Err(k.error);
      }
      var v := OvsToNativeAtomic(vt, es[e]);
      if v.Err? {
        return Err(v.error);
      }
      assert EntryGives(kt, vt, es, k.value, v.value);
      m := m[k.value := v.value];
      todo := todo - {e};
    }
    return Ok(m);
  }

  method OvsToNative(k: Kind, o: Ovs) returns (r: Result<Native, NotationError>)
    ensures r.Ok? <==> Convertible(k, o)
    ensures r.Ok? ==> Converts(k, o, r.value)
  {
    match k
    case AtomKind(t) =>
      if !o.Bare? {
        return Err(WrongType);
      }
      var a := OvsToNativeAtomic(t, o.e);
      return if a.Err? then Err(a.error) else Ok(One(a.value));
    case OptKind(t) =>
      if o.OvsMap? || (o.OvsSet? && |o.es| > 1) {
        return Err(WrongType);
      }
      if o.OvsSet? && |o.es| == 0 {
        return Ok(Pointer(None));
      }
      var a := OvsToNativeAtomic(t, if o.Bare? then o.e else o.es[0]);
      return if a.Err? then Err(a.error) else Ok(Pointer(Some(a.value)));
    case SetKind(t, _) =>
      var s := OvsToNativeSlice(t, o);
      return if s.Err? then Err(s.error) else Ok(Slice(s.value));
    case MapKind(kt, vt) =>
      if !o.OvsMap? {
        return Err(WrongType);
      }
      var m := OvsToNativeMap(kt, vt, o.m);
      return if m.Err? then Err(m.error) else Ok(Map(m.value));
  }

  // ---- the round trip ----

  /** Every number in the value is a floating point number. */
  ghost predicate Unrounded(f: real -> real, v: Native) {
    match v
    case One(a) => Landed(f, a) == a
    case Pointer(o) => o.Some? ==> Landed(f, o.value) == o.value
    case Slice(s) => forall i :: 0 <= i < |s| ==> Landed(f, s[i]) == s[i]
    case Map(m) => forall x :: x in m ==> Landed(f, x) == x && Landed(f, m[x]) == m[x]
  }

  /** The elements of a set, or the one element that stands for it. */
  function ElemsIn(o: Ovs): seq<Elem>
    requires !o.OvsMap?
  {
    if o.Bare? then [o.e] else o.es
  }

  /** A list of atoms arrives, in order, although one atom alone loses its set. */
  lemma SetTravels(f: real -> real, t: AtomType, s: seq<Atom>, es: seq<Elem>, j: Json)
    requires ElemsOf(t, s, es) && Marshals(OvsSet(es), j)
    ensures Decodable(f, j)
    ensures forall o :: Decodes(f, j, o) ==>
      !o.OvsMap? && |ElemsIn(o)| == |s| && forall i :: 0 <= i < |s| ==> OvsToNativeAtomic(t, ElemsIn(o)[i]) == Ok(Landed(f, s[i]))
  {
    forall i | 0 <= i < |s|
      ensures var e := UnmarshalElem(f, MarshalAtom(es[i].a)); e.Ok? && OvsToNativeAtomic(t, e.value) == Ok(Landed(f, s[i]))
    {
      AtomTravels(f, t, s[i]);
    }
    if |es| == 1 {
      assert !Tagged(j, "set") && !Tagged(j, "map");
    } else {
      var js := j.items[1].items;
      assert forall i :: 0 <= i < |s| ==> js[i] == MarshalAtom(es[i].a);
    }
  }

  /** `m'` is what arrives of map `m`. */
  ghost predicate MapLanded(f: real -> real, m: map<Atom, Atom>, m': map<Atom, Atom>) {
    && (forall x :: x in m ==> Landed(f, x) in m')
    && (forall y :: y in m' ==> LandedFrom(f, m, y, m'[y]))
  }

  ghost predicate LandedFrom(f: real -> real, m: map<Atom, Atom>, y: Atom, z: Atom) {
    exists x :: x in m && Landed(f, x) == y && Landed(f, m[x]) == z
  }

  /** One entry of a map on its way. */
  lemma EntryTravels(f: real -> real, kt: AtomType, vt: AtomType, x: Atom, y: Atom)
    requires NativeAtom(kt, x) && NativeAtom(vt, y)
    ensures var p := MarshalPair(NativeToOvsAtomic(kt, x), NativeToOvsAtomic(vt, y));
      && Readable(f, p)
      && OvsToNativeAtomic(kt, UnmarshalPart(f, p.items[0]).value) == Ok(Landed(f, x))
      && OvsToNativeAtomic(vt, UnmarshalPart(f, p.items[1]).value) == Ok(Landed(f, y))
  {
    AtomTravels(f, kt, x);
    AtomTravels(f, vt, y);
  }

  /** Each entry in OVSDB notation comes from a native entry. */
  ghost predicate Sourced(kt: AtomType, vt: AtomType, m: map<Atom, Atom>, es: map<Elem, Elem>) {
    forall e :: e in es ==> exists x :: x in m && EntryIn(kt, vt, es, x, m[x]) && NativeToOvsAtomic(kt, x) == e
  }

  lemma EntriesSourced(kt: AtomType, vt: AtomType, m: map<Atom, Atom>, es: map<Elem, Elem>)
    requires EntriesOf(kt, vt, m, es)
    ensures Sourced(kt, vt, m, es)
  {
    forall e | e in es
      ensures exists x :: x in m && EntryIn(kt, vt, es, x, m[x]) && NativeToOvsAtomic(kt, x) == e
    {
      var x :| x in m && NativeAtom(kt, x) && NativeToOvsAtomic(kt, x) == e;
      assert EntryIn(kt, vt, es, x, m[x]);
    }
  }

  /** Every pair on the wire comes from an entry of the native map. */
  lemma PairSource(f: real -> real, kt: AtomType, vt: AtomType, m: map<Atom, Atom>, es: map<Elem, Elem>, ps: seq<Json>, i: nat) returns (x: Atom)
    requires Sourced(kt, vt, m, es) && AllKnown(OvsMap(es)) && Only(es, ps) && i < |ps|
    ensures x in m && Readable(f, ps[i])
    ensures OvsToNativeAtomic(kt, UnmarshalPart(f, ps[i].items[0]).value) == Ok(Landed(f, x))
    ensures OvsToNativeAtomic(vt, UnmarshalPart(f, ps[i].items[1]).value) == Ok(Landed(f, m[x]))
  {
    assert PairOf(es, ps[i]);
    var e :| e in es && ps[i] == MarshalPair(e, es[e]);
    x :| x in m && EntryIn(kt, vt, es, x, m[x]) && NativeToOvsAtomic(kt, x) == e;
    EntryTravels(f, kt, vt, x, m[x]);
  }

  /** Pairs that can be read, with keys and values of the column's types. */
  ghost predicate PairsFit(f: real -> real, kt: AtomType, vt: AtomType, ps: seq<Json>) {
    forall i :: 0 <= i < |ps| ==>
      && Readable(f, ps[i])
      && OvsToNativeAtomic(kt, UnmarshalPart(f, ps[i].items[0]).value).Ok?
      && OvsToNativeAtomic(vt, UnmarshalPart(f, ps[i].items[1]).value).Ok?
  }

  lemma MapUsable(f: real -> real, kt: AtomType, vt: AtomType, m: map<Atom, Atom>, es: map<Elem, Elem>, ps: seq<Json>)
    requires Sourced(kt, vt, m, es) && AllKnown(OvsMap(es)) && Only(es, ps)
    ensures PairsFit(f, kt, vt, ps)
  {
    forall i | 0 <= i < |ps|
      ensures Readable(f, ps[i])
      ensures OvsToNativeAtomic(kt, UnmarshalPart(f, ps[i].items[0]).value).Ok?
      ensures OvsToNativeAtomic(vt, UnmarshalPart(f, ps[i].items[1]).value).Ok?
    {
      var x := PairSource(f, kt, vt, m, es, ps, i);
    }
  }

  lemma UsableConvertible(f: real -> real, kt: AtomType, vt: AtomType, ps: seq<Json>, es: map<Elem, Elem>)
    requires PairsFit(f, kt, vt, ps) && AllGiven(f, ps, es)
    ensures Convertible(MapKind(kt, vt), OvsMap(es))
  {
    forall e | e in es
      ensures OvsToNativeAtomic(kt, e).Ok? && OvsToNativeAtomic(vt, es[e]).Ok?
    {
      var i :| 0 <= i < |ps| && PairGives(f, ps[i], e, es[e]);
    }
  }

  lemma KeyArrives(f: real -> real, kt: AtomType, vt: AtomType, x: Atom, y: Atom, es: map<Elem, Elem>, ps: seq<Json>, es': map<Elem, Elem>, m': map<Atom, Atom>)
    requires EntryIn(kt, vt, es, x, y) && AllKnown(OvsMap(es)) && Covers(es, ps)
    requires KeysRead(f, ps, es') && NativeKeys(kt, vt, es', m')
    ensures Landed(f, x) in m'
  {
    EntryTravels(f, kt, vt, x, y);
    var e := NativeToOvsAtomic(kt, x);
    assert MarshalPair(e, es[e]) in ps;
    var i :| 0 <= i < |ps| && ps[i] == MarshalPair(e, es[e]);
    assert UnmarshalPart(f, ps[i].items[0]).value in es';
  }

  lemma EntryArrives(f: real -> real, kt: AtomType, vt: AtomType, m: map<Atom, Atom>, es: map<Elem, Elem>, ps: seq<Json>, es': map<Elem, Elem>, y: Atom, z: Atom)
    requires Sourced(kt, vt, m, es) && AllKnown(OvsMap(es)) && Only(es, ps)
    requires AllGiven(f, ps, es') && EntryGives(kt, vt, es', y, z)
    ensures LandedFrom(f, m, y, z)
  {
    var e, i := GivenAt(f, kt, vt, ps, es', y, z);
    var x := PairSource(f, kt, vt, m, es, ps, i);
    assert Landed(f, x) == y && Landed(f, m[x]) == z;
  }

  lemma GivenAt(f: real -> real, kt: AtomType, vt: AtomType, ps: seq<Json>, es: map<Elem, Elem>, y: Atom, z: Atom) returns (e: Elem, i: nat)
    requires AllGiven(f, ps, es) && EntryGives(kt, vt, es, y, z)
    ensures i < |ps| && Readable(f, ps[i])
    ensures OvsToNativeAtomic(kt, UnmarshalPart(f, ps[i].items[0]).value) == Ok(y)
    ensures OvsToNativeAtomic(vt, UnmarshalPart(f, ps[i].items[1]).value) == Ok(z)
  {
    e :| e in es && OvsToNativeAtomic(kt, e) == Ok(y) && OvsToNativeAtomic(vt, es[e]) == Ok(z);
    i :| 0 <= i < |ps| && PairGives(f, ps[i], e, es[e]);
  }

  lemma MapTravels(f: real -> real, kt: AtomType, vt: AtomType, m: map<Atom, Atom>, es: map<Elem, Elem>, ps: seq<Json>, es': map<Elem, Elem>, m': map<Atom, Atom>)
    requires EntriesOf(kt, vt, m, es) && AllKnown(OvsMap(es)) && Enumerates(es, ps)
    requires PairsRead(f, ps, es') && NativeEntries(kt, vt, es', m')
    ensures MapLanded(f, m, m')
  {
    forall x | x in m
      ensures Landed(f, x) in m'
    {
      assert EntryIn(kt, vt, es, x, m[x]);
      KeyArrives(f, kt, vt, x, m[x], es, ps, es', m');
    }
    EntriesSourced(kt, vt, m, es);
    forall y | y in m'
      ensures LandedFrom(f, m, y, m'[y])
    {
      EntryArrives(f, kt, vt, m, es, ps, es', y, m'[y]);
    }
  }

  lemma LandedFixed(f: real -> real, m: map<Atom, Atom>, y: Atom, z: Atom)
    requires Float64(f) && LandedFrom(f, m, y, z)
    ensures Landed(f, y) == y
    ensures (forall x :: x in m ==> Landed(f, x) == x) ==> y in m && z == Landed(f, m[y])
  {
    var x :| x in m && Landed(f, x) == y && Landed(f, m[x]) == z;
    LandedOnce(f, x);
  }

  lemma LandedExact(f: real -> real, m: map<Atom, Atom>, m': map<Atom, Atom>)
    requires Float64(f) && MapLanded(f, m, m')
    ensures m' == m <==> Unrounded(f, Map(m))
  {
    forall y | y in m'
      ensures Landed(f, y) == y
      ensures (forall x :: x in m ==> Landed(f, x) == x) ==> y in m && m'[y] == Landed(f, m[y])
    {
      LandedFixed(f, m, y, m'[y]);
    }
    if x :| x in m && Landed(f, x) != x {
      assert x !in m';
    } else {
      assert forall x :: x in m ==> x in m' by {
        forall x | x in m
          ensures x in m'
        {
          assert Landed(f, x) == x;
        }
      }
      assert m'.Keys == m.Keys;
    }
  }

  /** Nothing fails on the way. */
  lemma Arrives(f: real -> real, k: Kind, v: Native, o: Ovs, j: Json)
    requires Denotes(k, v, o) && Marshals(o, j)
    ensures Decodable(f, j)
    ensures forall o' :: Decodes(f, j, o') ==> Convertible(k, o')
  {
    match k
    case AtomKind(t) => AtomTravels(f, t, v.a);
    case OptKind(t) =>
      var s := if v.o.Some? then [v.o.value] else [];
      SetTravels(f, t, s, o.es, j);
    case SetKind(t, _) => SetTravels(f, t, v.s, o.es, j);
    case MapKind(kt, vt) =>
      var ps := j.items[1].items;
      EntriesSourced(kt, vt, v.m, o.m);
      MapUsable(f, kt, vt, v.m, o.m, ps);
      forall o' | Decodes(f, j, o')
        ensures Convertible(k, o')
      {
        UsableConvertible(f, kt, vt, ps, o'.m);
      }
  }

  /** Wire round trip: a native value sent as JSON and read back is the same value exactly when
      every number in it is a floating point number. */
  lemma RoundTrip(f: real -> real, k: Kind, v: Native, o: Ovs, j: Json, o': Ovs, v': Native)
    requires Float64(f)
    requires Denotes(k, v, o) && Marshals(o, j) && Decodes(f, j, o') && Converts(k, o', v')
    ensures v' == v <==> Unrounded(f, v)
  {
    match k
    case AtomKind(t) => AtomTravels(f, t, v.a);
    case OptKind(t) =>
      var s := if v.o.Some? then [v.o.value] else [];
      SetTravels(f, t, s, o.es, j);
      var s' := if v'.o.Some? then [v'.o.value] else [];
      assert |s'| == |s| && forall i :: 0 <= i < |s| ==> s'[i] == Landed(f, s[i]);
    case SetKind(t, _) =>
      SetTravels(f, t, v.s, o.es, j);
      assert forall i :: 0 <= i < |v.s| ==> v'.s[i] == Landed(f, v.s[i]);
    case MapKind(kt, vt) =>
      MapTravels(f, kt, vt, v.m, o.m, j.items[1].items, o'.m, v'.m);
      LandedExact(f, v.m, v'.m);
  }

  /** An integer of magnitude at most 2^53, a floating point number, or no number. */
  ghost predicate Modest(f: real -> real, a: Atom) {
    (a.IntAtom? ==> -TWO_53 <= a.i <= TWO_53) && (a.RealAtom? ==> f(a.r) == a.r)
  }

  ghost predicate AllModest(f: real -> real, v: Native) {
    match v
    case One(a) => Modest(f, a)
    case Pointer(o) => o.Some? ==> Modest(f, o.value)
    case Slice(s) => forall i :: 0 <= i < |s| ==> Modest(f, s[i])
    case Map(m) => forall x :: x in m ==> Modest(f, x) && Modest(f, m[x])
  }

  lemma ModestLands(f: real -> real, a: Atom)
    requires Float64(f) && Modest(f, a)
    ensures Landed(f, a) == a
  {
    LandedOnce(f, a);
  }

  /** Values whose integers are of magnitude at most 2^53 and whose reals are floating point numbers
      always arrive. */
  lemma SmallIntsArrive(f: real -> real, v: Native)
    requires Float64(f) && AllModest(f, v)
    ensures Unrounded(f, v)
  {
    match v
    case One(a) => ModestLands(f, a);
    case Pointer(o) =>
      if o.Some? {
        ModestLands(f, o.value);
      }
    case Slice(s) =>
      forall i | 0 <= i < |s|
        ensures Landed(f, s[i]) == s[i]
      {
        ModestLands(f, s[i]);
      }
    case Map(m) =>
      forall x | x in m
        ensures Landed(f, x) == x && Landed(f, m[x]) == m[x]
      {
        ModestLands(f, x);
        ModestLands(f, m[x]);
      }
  }

  /** All the way: encode, marshal, unmarshal, decode. */
  method SendAndReceive(f: real -> real, k: Kind, v: Native) returns (r: Result<Native, NotationError>)
    requires Float64(f)
    ensures r.Ok? <==> WellTyped(k, v)
    ensures r.Ok? ==> (r.value == v <==> Unrounded(f, v))
  {
    var o := NativeToOvs(k, v);
    if o.Err? {
      return Err(o.error);
    }
    DenotesKnown(k, v, o.value);
    var j := Marshal(o.value);
    Arrives(f, k, v, o.value, j);
    var o' := Unmarshal(f, j);
    r := OvsToNative(k, o'.value);
    RoundTrip(f, k, v, o.value, j, o'.value, r.value);
  }

  lemma DenotesKnown(k: Kind, v: Native, o: Ovs)
    requires Denotes(k, v, o)
    ensures AllKnown(o)
  {
    if k.MapKind? {
      forall e | e in o.m
        ensures e.Known? && o.m[e].Known?
      {
        var x :| x in v.m && NativeAtom(k.k, x) && NativeToOvsAtomic(k.k, x) == e;
      }
    }
  }
}
