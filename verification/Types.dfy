/** Type declarations, and the relations between types that Sema and the code
    generator compute by following alias and base references. */
module Types {
  import opened Source

  type TypeId = nat
  type ProcId = nat
  type Name = string

  datatype Builtin = Integer | Real | Boolean

  datatype FieldDecl = FieldDecl(name: Name, ty: TypeId)

  datatype TypeDecl =
    | Named(builtin: Builtin)
    | Alias(target: TypeId)
    | ArrayOf(elem: TypeId, low: int, high: int)
    | RecordOf(base: Option<TypeId>, fields: seq<FieldDecl>, methods: seq<ProcId>, tag: bool)

  /** A type only mentions types declared before it. */
  ghost predicate DeclOk(ts: seq<TypeDecl>, t: TypeId)
    requires t < |ts|
  {
    match ts[t]
    case Named(_) => true
    case Alias(a) => a < t
    case ArrayOf(e, low, high) => e < t && low <= high
    case RecordOf(base, fields, _, _) =>
      && (base.Some? ==> base.value < t)
      && (forall i :: 0 <= i < |fields| ==> fields[i].ty < t)
  }

  /** A record extends a record. */
  predicate BaseOk(ts: seq<TypeDecl>, t: TypeId)
    requires t < |ts|
  {
    ts[t].RecordOf? && ts[t].base.Some? ==> ts[t].base.value < |ts| && ts[ts[t].base.value].RecordOf?
  }

  ghost predicate TypesOk(ts: seq<TypeDecl>) {
    && (forall t {:trigger ts[t]} :: 0 <= t < |ts| ==> DeclOk(ts, t))
    && (forall t {:trigger BaseOk(ts, t)} :: 0 <= t < |ts| ==> BaseOk(ts, t))
  }

  /** The type a record extends, if it does. */
  function Base(ts: seq<TypeDecl>, t: TypeId): (r: Option<TypeId>)
    requires TypesOk(ts) && t < |ts| && ts[t].RecordOf?
    ensures r == ts[t].base && (r.Some? ==> r.value < t && ts[r.value].RecordOf?)
  {
    assert BaseOk(ts, t);
    ts[t].base
  }

  // ----- aliases -----

  function Underlying(ts: seq<TypeDecl>, t: TypeId): TypeId
    requires TypesOk(ts) && t < |ts|
    ensures Underlying(ts, t) <= t && !ts[Underlying(ts, t)].Alias?
    decreases t
  {
    if ts[t].Alias? then Underlying(ts, ts[t].target) else t
  }

  method GetUnderlyingType(ts: seq<TypeDecl>, t: TypeId) returns (u: TypeId)
    requires TypesOk(ts) && t < |ts|
    ensures u == Underlying(ts, t)
  {
    u := t;
    while ts[u].Alias?
      invariant u < |ts| && Underlying(ts, u) == Underlying(ts, t)
      decreases u
    {
      u := ts[u].target;
    }
  }

  // ----- sameness: identity up to aliases and array structure -----

  function SameType(ts: seq<TypeDecl>, l: TypeId, r: TypeId): bool
    requires TypesOk(ts) && l < |ts| && r < |ts|
    decreases l
  {
    var (x, y) := (Underlying(ts, l), Underlying(ts, r));
    x == y ||
    (ts[x].ArrayOf? && ts[y].ArrayOf? && ts[x].low == ts[y].low && ts[x].high == ts[y].high
     && SameType(ts, ts[x].elem, ts[y].elem))
  }

  /** With a missing type, as a procedure without result has, only that matches. */
  function SameOptType(ts: seq<TypeDecl>, l: Option<TypeId>, r: Option<TypeId>): bool
    requires TypesOk(ts) && (l.Some? ==> l.value < |ts|) && (r.Some? ==> r.value < |ts|)
  {
    if l.None? || r.None? then l == r else SameType(ts, l.value, r.value)
  }

  lemma {:induction false} SameTypeSym(ts: seq<TypeDecl>, l: TypeId, r: TypeId)
    requires TypesOk(ts) && l < |ts| && r < |ts|
    ensures SameType(ts, l, r) <==> SameType(ts, r, l)
    decreases l
  {
    var (x, y) := (Underlying(ts, l), Underlying(ts, r));
    if ts[x].ArrayOf? && ts[y].ArrayOf? {
      SameTypeSym(ts, ts[x].elem, ts[y].elem);
    }
  }

  lemma {:induction false} SameTypeTrans(ts: seq<TypeDecl>, a: TypeId, b: TypeId, c: TypeId)
    requires TypesOk(ts) && a < |ts| && b < |ts| && c < |ts|
    requires SameType(ts, a, b) && SameType(ts, b, c)
    ensures SameType(ts, a, c)
    decreases a
  {
    var (x, y, z) := (Underlying(ts, a), Underlying(ts, b), Underlying(ts, c));
    if x != y && y != z {
      SameTypeTrans(ts, ts[x].elem, ts[y].elem, ts[z].elem);
    }
  }

  /** A type with its aliases followed and its arrays spelled out: what is left of a
      scalar or record is which declaration it is. */
  datatype Shape = Declaration(t: TypeId) | Nested(low: int, high: int, elem: Shape)

  function ShapeOf(ts: seq<TypeDecl>, t: TypeId): Shape
    requires TypesOk(ts) && t < |ts|
    decreases t
  {
    match ts[t]
    case Alias(a) => ShapeOf(ts, a)
    case ArrayOf(e, low, high) => Nested(low, high, ShapeOf(ts, e))
    case _ => Declaration(t)
  }

  lemma {:induction false} ShapeUnderlying(ts: seq<TypeDecl>, t: TypeId)
    requires TypesOk(ts) && t < |ts|
    ensures ShapeOf(ts, t) == ShapeOf(ts, Underlying(ts, t))
    decreases t
  {
    if ts[t].Alias? { ShapeUnderlying(ts, ts[t].target); }
  }

  /** Two types are the same exactly if they are spelled out alike. */
  lemma {:induction false} SameTypeIff(ts: seq<TypeDecl>, l: TypeId, r: TypeId)
    requires TypesOk(ts) && l < |ts| && r < |ts|
    ensures SameType(ts, l, r) <==> ShapeOf(ts, l) == ShapeOf(ts, r)
    decreases l
  {
    var (x, y) := (Underlying(ts, l), Underlying(ts, r));
    ShapeUnderlying(ts, l);
    ShapeUnderlying(ts, r);
    if ts[x].ArrayOf? && ts[y].ArrayOf? { SameTypeIff(ts, ts[x].elem, ts[y].elem); }
  }

  // ----- extension -----

  /** Ty is Base or extends it: the base chain of Ty, both without aliases. */
  function Extends(ts: seq<TypeDecl>, t: TypeId, b: TypeId): bool
    requires TypesOk(ts) && t < |ts|
    decreases t
  {
    t == b || (ts[t].RecordOf? && Base(ts, t).Some? && Extends(ts, Base(ts, t).value, b))
  }

  method IsExtensionOf(ts: seq<TypeDecl>, ty: TypeId, base: TypeId) returns (r: bool)
    requires TypesOk(ts) && ty < |ts| && base < |ts|
    ensures r == Extends(ts, Underlying(ts, ty), Underlying(ts, base))
  {
    var t: TypeId := GetUnderlyingType(ts, ty);
    var b := GetUnderlyingType(ts, base);
    while true
      invariant 0 <= t < |ts| && Extends(ts, t, b) == Extends(ts, Underlying(ts, ty), Underlying(ts, base))
      decreases t
    {
      if t == b { return true; }
      if !ts[t].RecordOf? || Base(ts, t).None? { return false; }
      assert Underlying(ts, Base(ts, t).value) == Base(ts, t).value;
      t := GetUnderlyingType(ts, Base(ts, t).value);
    }
  }

  lemma {:induction false} ExtendsTrans(ts: seq<TypeDecl>, a: TypeId, b: TypeId, c: TypeId)
    requires TypesOk(ts) && a < |ts| && b < |ts| && Extends(ts, a, b) && Extends(ts, b, c)
    ensures Extends(ts, a, c)
    decreases a
  {
    if a != b { ExtendsTrans(ts, Base(ts, a).value, b, c); }
  }

  lemma {:induction false} ExtendsBelow(ts: seq<TypeDecl>, a: TypeId, b: TypeId)
    requires TypesOk(ts) && a < |ts| && Extends(ts, a, b)
    ensures b <= a && (a != b ==> ts[a].RecordOf? && ts[b].RecordOf?)
    decreases a
  {
    if a != b { ExtendsBelow(ts, Base(ts, a).value, b); }
  }

  /** n steps along the chain of bases. */
  function Ancestor(ts: seq<TypeDecl>, t: TypeId, n: nat): Option<TypeId>
    requires TypesOk(ts) && t < |ts|
    decreases n
  {
    if n == 0 then Some(t)
    else if ts[t].RecordOf? && Base(ts, t).Some? then Ancestor(ts, Base(ts, t).value, n - 1)
    else None
  }

  /** Extending a record is reaching it along that chain. */
  lemma ExtendsIff(ts: seq<TypeDecl>, t: TypeId, b: TypeId)
    requires TypesOk(ts) && t < |ts|
    ensures Extends(ts, t, b) <==> exists n: nat :: Ancestor(ts, t, n) == Some(b)
  {
    if Extends(ts, t, b) { var n := StepsTo(ts, t, b); }
    forall n: nat | Ancestor(ts, t, n) == Some(b) ensures Extends(ts, t, b) { StepsExtend(ts, t, n, b); }
  }

  lemma {:induction false} StepsTo(ts: seq<TypeDecl>, t: TypeId, b: TypeId) returns (n: nat)
    requires TypesOk(ts) && t < |ts| && Extends(ts, t, b)
    ensures Ancestor(ts, t, n) == Some(b)
    decreases t
  {
    n := 0;
    if t != b {
      n := StepsTo(ts, Base(ts, t).value, b);
      n := n + 1;
    }
  }

  lemma {:induction false} StepsExtend(ts: seq<TypeDecl>, t: TypeId, n: nat, b: TypeId)
    requires TypesOk(ts) && t < |ts| && Ancestor(ts, t, n) == Some(b)
    ensures Extends(ts, t, b)
    decreases n
  {
    if n > 0 { StepsExtend(ts, Base(ts, t).value, n - 1, b); }
  }

  /** isExtensionOf is a partial order on types without aliases. */
  lemma ExtendsAntisym(ts: seq<TypeDecl>, a: TypeId, b: TypeId)
    requires TypesOk(ts) && a < |ts| && b < |ts| && Extends(ts, a, b) && Extends(ts, b, a)
    ensures a == b
  {
    ExtendsBelow(ts, a, b);
    ExtendsBelow(ts, b, a);
  }

  // ----- fields -----

  /** A field declaration, known by the record that declares it. */
  datatype FieldRef = FieldRef(owner: TypeId, pos: nat)

  function OwnFields(ts: seq<TypeDecl>, t: TypeId): (r: seq<FieldRef>)
    requires t < |ts| && ts[t].RecordOf?
    ensures |r| == |ts[t].fields| && forall i :: 0 <= i < |r| ==> r[i] == FieldRef(t, i)
  {
    seq(|ts[t].fields|, i requires 0 <= i => FieldRef(t, i))
  }

  function AllFields(ts: seq<TypeDecl>, t: TypeId): (r: seq<FieldRef>)
    requires TypesOk(ts) && t < |ts| && ts[t].RecordOf?
    ensures forall i :: 0 <= i < |r| ==> RefOk(ts, r[i]) && r[i].owner <= t
    decreases t
  {
    (if Base(ts, t).Some? then AllFields(ts, Base(ts, t).value) else []) + OwnFields(ts, t)
  }

  predicate RefOk(ts: seq<TypeDecl>, f: FieldRef) {
    f.owner < |ts| && ts[f.owner].RecordOf? && f.pos < |ts[f.owner].fields|
  }

  function IndexIn<T(==)>(s: seq<T>, x: T): (i: nat)
    requires x in s
    ensures i < |s| && s[i] == x && forall j :: 0 <= j < i ==> s[j] != x
  {
    if s[0] == x then 0 else 1 + IndexIn(s[1..], x)
  }

  lemma FirstIs<T>(s: seq<T>, j: nat, x: T)
    requires j < |s| && s[j] == x && forall k :: 0 <= k < j ==> s[k] != x
    ensures x in s && IndexIn(s, x) == j
  {
  }

  function FieldIndex(ts: seq<TypeDecl>, t: TypeId, f: FieldRef): nat
    requires TypesOk(ts) && t < |ts| && ts[t].RecordOf? && f in AllFields(ts, t)
  {
    (if ts[t].tag then 1 else 0) + IndexIn(AllFields(ts, t), f)
  }

  method GetFieldIndex(ts: seq<TypeDecl>, t: TypeId, f: FieldRef) returns (index: nat)
    requires TypesOk(ts) && t < |ts| && ts[t].RecordOf? && f in AllFields(ts, t)
    ensures index == FieldIndex(ts, t, f)
  {
    var all := AllFields(ts, t);
    var i := SearchField(all, f);
    index := (if ts[t].tag then 1 else 0) + i;
  }

  /** The search of getFieldIndex. */
  method SearchField(all: seq<FieldRef>, f: FieldRef) returns (i: nat)
    requires f in all
    ensures i == IndexIn(all, f)
  {
    i := 0;
    while all[i] != f
      invariant i <= IndexIn(all, f)
      decreases |all| - i
    {
      i := i + 1;
    }
    FirstIs(all, i, f);
  }

  lemma {:induction false} ExtensionKeepsFields(ts: seq<TypeDecl>, t: TypeId, b: TypeId)
    requires TypesOk(ts) && t < |ts| && ts[t].RecordOf? && Extends(ts, t, b)
    ensures b < |ts| && ts[b].RecordOf? && AllFields(ts, b) <= AllFields(ts, t)
    decreases t
  {
    if t != b { ExtensionKeepsFields(ts, Base(ts, t).value, b); }
  }

  function FieldName(ts: seq<TypeDecl>, f: FieldRef): Name
    requires RefOk(ts, f)
  {
    ts[f.owner].fields[f.pos].name
  }

  /** The record's own fields first, then the base's. */
  function LookupField(ts: seq<TypeDecl>, t: TypeId, name: Name): (r: Option<FieldRef>)
    requires TypesOk(ts) && t < |ts| && ts[t].RecordOf?
    ensures r.Some? ==> r.value in AllFields(ts, t) && RefOk(ts, r.value) && FieldName(ts, r.value) == name
    ensures r.None? ==> forall i :: 0 <= i < |AllFields(ts, t)| ==> FieldName(ts, AllFields(ts, t)[i]) != name
    decreases t
  {
    var rec := ts[t];
    match OwnField(rec.fields, name)
    case Some(i) => assert OwnFields(ts, t)[i] == FieldRef(t, i); Some(FieldRef(t, i))
    case None => if Base(ts, t).Some? then LookupField(ts, Base(ts, t).value, name) else None
  }

  function OwnField(fields: seq<FieldDecl>, name: Name): (r: Option<nat>)
    ensures r.Some? ==> r.value < |fields| && fields[r.value].name == name
    ensures forall i :: 0 <= i < (if r.Some? then r.value else |fields|) ==> fields[i].name != name
  {
    if fields == [] then None
    else if fields[0].name == name then Some(0)
    else match OwnField(fields[1..], name) case Some(i) => Some(i + 1) case None => None
  }

  /** Both ends of every extension carry the tag. */
  ghost predicate TagsOk(ts: seq<TypeDecl>) {
    forall t {:trigger TagOk(ts, t)} :: 0 <= t < |ts| ==> TagOk(ts, t)
  }

  ghost predicate TagOk(ts: seq<TypeDecl>, t: TypeId)
    requires t < |ts|
  {
    ts[t].RecordOf? && ts[t].base.Some? ==>
      ts[t].tag && ts[t].base.value < |ts| && ts[ts[t].base.value].RecordOf? && ts[ts[t].base.value].tag
  }

  lemma {:induction false} TagsAgree(ts: seq<TypeDecl>, t: TypeId, b: TypeId)
    requires TypesOk(ts) && TagsOk(ts) && t < |ts| && ts[t].RecordOf? && Extends(ts, t, b)
    ensures b < |ts| && ts[b].RecordOf? && ts[b].tag == ts[t].tag && (t != b ==> ts[b].tag)
    decreases t
  {
    assert TagOk(ts, t);
    if t != b { TagsAgree(ts, Base(ts, t).value, b); }
  }

  /** An inherited field has the same index in the base and in the extension. */
  lemma InheritedFieldIndex(ts: seq<TypeDecl>, t: TypeId, b: TypeId, f: FieldRef)
    requires TypesOk(ts) && TagsOk(ts) && t < |ts| && ts[t].RecordOf? && b < |ts| && ts[b].RecordOf? &&
             Extends(ts, t, b)
    requires f in AllFields(ts, b)
    ensures f in AllFields(ts, t) && FieldIndex(ts, t, f) == FieldIndex(ts, b, f)
  {
    ExtensionKeepsFields(ts, t, b);
    TagsAgree(ts, t, b);
    var i, j := IndexIn(AllFields(ts, b), f), IndexIn(AllFields(ts, t), f);
    assert AllFields(ts, t)[i] == f;
  }

  lemma {:induction false} FieldsDistinct(ts: seq<TypeDecl>, t: TypeId, i: nat, j: nat)
    requires TypesOk(ts) && t < |ts| && ts[t].RecordOf? && i < j < |AllFields(ts, t)|
    ensures AllFields(ts, t)[i] != AllFields(ts, t)[j]
    decreases t
  {
    if Base(ts, t).Some? && j < |AllFields(ts, Base(ts, t).value)| {
      FieldsDistinct(ts, Base(ts, t).value, i, j);
    }
  }

  /** Each index after the tag belongs to a field. */
  lemma FieldIndexOnto(ts: seq<TypeDecl>, t: TypeId, n: nat)
    requires TypesOk(ts) && t < |ts| && ts[t].RecordOf? && n < |AllFields(ts, t)|
    ensures FieldIndex(ts, t, AllFields(ts, t)[n]) == n + if ts[t].tag then 1 else 0
  {
    var i := IndexIn(AllFields(ts, t), AllFields(ts, t)[n]);
    if i < n { FieldsDistinct(ts, t, i, n); }
  }

  /** Different fields of a record have different indices. */
  lemma FieldIndexInjective(ts: seq<TypeDecl>, t: TypeId, f: FieldRef, g: FieldRef)
    requires TypesOk(ts) && t < |ts| && ts[t].RecordOf? && f in AllFields(ts, t) && g in AllFields(ts, t)
    ensures FieldIndex(ts, t, f) == FieldIndex(ts, t, g) <==> f == g
  {
  }

  // ----- lowering -----

  datatype Lowered = Int64 | Float | Int1 | Pointer | Array(elem: Lowered, n: int) | Struct(parts: seq<Lowered>)

  function Convert(ts: seq<TypeDecl>, t: TypeId): Lowered
    requires TypesOk(ts) && t < |ts|
    decreases t, 1
  {
    match ts[t]
    case Named(Integer) => Int64
    case Named(Real) => Float
    case Named(Boolean) => Int1
    case Alias(a) => Convert(ts, a)
    case ArrayOf(e, low, high) => Array(Convert(ts, e), high - low + 1)
    case RecordOf(_, _, _, _) => Struct(Parts(ts, t))
  }

  function Parts(ts: seq<TypeDecl>, t: TypeId): seq<Lowered>
    requires TypesOk(ts) && t < |ts| && ts[t].RecordOf?
    decreases t, 0
  {
    var all := AllFields(ts, t);
    (if ts[t].tag then [Pointer] else []) +
    seq(|all|, i requires 0 <= i < |all| => Convert(ts, FieldType(ts, t, all[i])))
  }

  function FieldType(ts: seq<TypeDecl>, t: TypeId, f: FieldRef): (r: TypeId)
    requires TypesOk(ts) && t < |ts| && RefOk(ts, f) && f.owner <= t
    ensures r < t
  {
    ts[f.owner].fields[f.pos].ty
  }

  /** The lowered form of a field is the part at its index. */
  lemma FieldPart(ts: seq<TypeDecl>, t: TypeId, f: FieldRef)
    requires TypesOk(ts) && t < |ts| && ts[t].RecordOf? && f in AllFields(ts, t)
    ensures RefOk(ts, f) && FieldIndex(ts, t, f) < |Parts(ts, t)|
    ensures Parts(ts, t)[FieldIndex(ts, t, f)] == Convert(ts, ts[f.owner].fields[f.pos].ty)
  {
    var all := AllFields(ts, t);
    var i := IndexIn(all, f);
    assert RefOk(ts, all[i]);
    assert Parts(ts, t)[i + if ts[t].tag then 1 else 0] == Convert(ts, FieldType(ts, t, all[i]));
  }

  /** A derived record can be viewed as its base. */
  lemma ExtensionKeepsParts(ts: seq<TypeDecl>, t: TypeId, b: TypeId)
    requires TypesOk(ts) && TagsOk(ts) && t < |ts| && ts[t].RecordOf? && Extends(ts, t, b)
    ensures b < |ts| && ts[b].RecordOf? && Parts(ts, b) <= Parts(ts, t)
  {
    ExtensionKeepsFields(ts, t, b);
    TagsAgree(ts, t, b);
    var p, q := Parts(ts, b), Parts(ts, t);
    forall i | 0 <= i < |p| ensures p[i] == q[i] {
      var j := i - if ts[b].tag then 1 else 0;
      if j >= 0 { assert AllFields(ts, b)[j] == AllFields(ts, t)[j]; }
    }
  }

  lemma {:induction false} ConvertUnderlying(ts: seq<TypeDecl>, t: TypeId)
    requires TypesOk(ts) && t < |ts|
    ensures Convert(ts, t) == Convert(ts, Underlying(ts, t))
    decreases t
  {
    if ts[t].Alias? { ConvertUnderlying(ts, ts[t].target); }
  }

  /** What scalars are lowered to, under whatever alias. */
  lemma ScalarsLowered(ts: seq<TypeDecl>, t: TypeId)
    requires TypesOk(ts) && t < |ts|
    ensures ts[Underlying(ts, t)] == Named(Integer) <==> Convert(ts, t) == Int64
    ensures ts[Underlying(ts, t)] == Named(Real) <==> Convert(ts, t) == Float
    ensures ts[Underlying(ts, t)] == Named(Boolean) <==> Convert(ts, t) == Int1
  {
    ConvertUnderlying(ts, t);
  }

  /** Same types have the same lowered form. */
  lemma {:induction false} SameTypeConverts(ts: seq<TypeDecl>, l: TypeId, r: TypeId)
    requires TypesOk(ts) && l < |ts| && r < |ts| && SameType(ts, l, r)
    ensures Convert(ts, l) == Convert(ts, r)
    decreases l
  {
    var (x, y) := (Underlying(ts, l), Underlying(ts, r));
    ConvertUnderlying(ts, l);
    ConvertUnderlying(ts, r);
    if x != y { SameTypeConverts(ts, ts[x].elem, ts[y].elem); }
  }

  // ----- actual and formal parameters -----

  method IsCompatibleWithFormal(ts: seq<TypeDecl>, actual: Option<TypeId>, formal: Option<TypeId>, isVar: bool)
    returns (r: bool)
    requires TypesOk(ts) && (actual.Some? ==> actual.value < |ts|) && (formal.Some? ==> formal.value < |ts|)
    ensures r == Compatible(ts, actual, formal, isVar)
  {
    if SameOptType(ts, actual, formal) { return true; }
    if actual.None? || formal.None? || !isVar { return false; }
    var a := GetUnderlyingType(ts, actual.value);
    var f := GetUnderlyingType(ts, formal.value);
    if !ts[a].RecordOf? || !ts[f].RecordOf? {
      if ts[a].RecordOf? && Extends(ts, a, f) { ExtensionKeepsFields(ts, a, f); }
      return false;
    }
    r := IsExtensionOf(ts, a, f);
  }

  predicate Compatible(ts: seq<TypeDecl>, actual: Option<TypeId>, formal: Option<TypeId>, isVar: bool)
    requires TypesOk(ts) && (actual.Some? ==> actual.value < |ts|) && (formal.Some? ==> formal.value < |ts|)
  {
    || SameOptType(ts, actual, formal)
    || (isVar && actual.Some? && formal.Some? && ts[Underlying(ts, actual.value)].RecordOf?
        && Extends(ts, Underlying(ts, actual.value), Underlying(ts, formal.value)))
  }

  /** What fits a formal: a type spelled out alike and, at a VAR position, a record
      that reaches the formal's along its bases. */
  lemma CompatibleIff(ts: seq<TypeDecl>, actual: TypeId, formal: TypeId, isVar: bool)
    requires TypesOk(ts) && actual < |ts| && formal < |ts|
    ensures Compatible(ts, Some(actual), Some(formal), isVar) <==>
            || ShapeOf(ts, actual) == ShapeOf(ts, formal)
            || (&& isVar && ts[Underlying(ts, actual)].RecordOf? && ts[Underlying(ts, formal)].RecordOf?
                && exists n: nat :: Ancestor(ts, Underlying(ts, actual), n) == Some(Underlying(ts, formal)))
  {
    SameTypeIff(ts, actual, formal);
    var (a, f) := (Underlying(ts, actual), Underlying(ts, formal));
    ExtendsIff(ts, a, f);
    if Extends(ts, a, f) { ExtendsBelow(ts, a, f); }
  }

  /** Behind the address passed for a VAR parameter there is at least what the
      formal parameter's type says. */
  lemma CompatibleParts(ts: seq<TypeDecl>, actual: TypeId, formal: TypeId, isVar: bool)
    requires TypesOk(ts) && TagsOk(ts) && actual < |ts| && formal < |ts| &&
             Compatible(ts, Some(actual), Some(formal), isVar)
    ensures Convert(ts, actual) == Convert(ts, formal)
            || (isVar && Convert(ts, actual).Struct? && Convert(ts, formal).Struct?
                && Convert(ts, formal).parts <= Convert(ts, actual).parts)
  {
    if SameType(ts, actual, formal) {
      SameTypeConverts(ts, actual, formal);
    } else {
      ConvertUnderlying(ts, actual);
      ConvertUnderlying(ts, formal);
      ExtensionKeepsParts(ts, Underlying(ts, actual), Underlying(ts, formal));
    }
  }
}
