/** The initial contents of variables: which of their records get their type
    descriptor. The tag of a record stands at the address of the record. */
module ZeroValues {
  import opened Ir
  import opened Source
  import opened Types

  /** A constant, by its structure; tag is the descriptor in front of a record. */
  datatype Zero = Word(v: Val) | Elements(es: seq<Zero>) | Components(tag: Option<Val>, cs: seq<Zero>)

  function FieldTypes(ts: seq<TypeDecl>, t: TypeId): (r: seq<TypeId>)
    requires TypesOk(ts) && t < |ts| && ts[t].RecordOf?
    ensures |r| == |AllFields(ts, t)| && forall i :: 0 <= i < |r| ==> r[i] < t
  {
    var all := AllFields(ts, t);
    seq(|all|, i requires 0 <= i < |all| => FieldType(ts, t, all[i]))
  }

  function Extent(d: TypeDecl): nat
    requires d.ArrayOf? && d.low <= d.high
  {
    d.high - d.low + 1
  }

  lemma ArrayOk(ts: seq<TypeDecl>, t: TypeId)
    requires TypesOk(ts) && t < |ts| && ts[t].ArrayOf?
    ensures ts[t].elem < t && ts[t].low <= ts[t].high
  {
    assert DeclOk(ts, t);
  }

  predicate IsTagged(ts: seq<TypeDecl>, t: TypeId) { t < |ts| && ts[t].RecordOf? && ts[t].tag }

  // ----- getZeroValue -----

  /** Zeros all over: ConstantAggregateZero, or the zero of a scalar. */
  function AllZero(ts: seq<TypeDecl>, t: TypeId): Zero
    requires TypesOk(ts) && t < |ts|
    decreases t
  {
    match ts[t]
    case Named(Integer) => Word(Int(0))
    case Named(Real) => Word(Val.Real(0.0))
    case Named(Boolean) => Word(Bool(false))
    case Alias(a) => AllZero(ts, a)
    case ArrayOf(e, _, _) =>
      ArrayOk(ts, t);
      Elements(seq(Extent(ts[t]), i => AllZero(ts, e)))
    case RecordOf(_, _, _, tag) =>
      var fs := FieldTypes(ts, t);
      Components(if tag then Some(Null) else None, seq(|fs|, i requires 0 <= i < |fs| => AllZero(ts, fs[i])))
  }

  function ZeroValue(ts: seq<TypeDecl>, t: TypeId, desc: TypeId -> Loc): Zero
    requires TypesOk(ts) && t < |ts|
    decreases t
  {
    match ts[t]
    case Alias(a) => ZeroValue(ts, a, desc)
    case RecordOf(_, _, _, true) =>
      var fs := FieldTypes(ts, t);
      Components(Some(Ptr(desc(t))), seq(|fs|, i requires 0 <= i < |fs| => ZeroValue(ts, fs[i], desc)))
    case ArrayOf(e, _, _) =>
      ArrayOk(ts, t);
      if IsTagged(ts, Underlying(ts, e)) then Elements(seq(Extent(ts[t]), i => ZeroValue(ts, e, desc)))
      else AllZero(ts, t)
    case _ => AllZero(ts, t)
  }

  // ----- components -----

  /** What the constant holds at a path: a word, or the tag of the record there. */
  function At(z: Zero, path: seq<int>): Option<Val>
    decreases |path|
  {
    match z
    case Word(v) => if path == [] then Some(v) else None
    case Elements(es) => if path != [] && 0 <= path[0] < |es| then At(es[path[0]], path[1..]) else None
    case Components(tag, cs) =>
      if path == [] then tag
      else
        var i := path[0] - if tag.Some? then 1 else 0;
        if 0 <= i < |cs| then At(cs[i], path[1..]) else None
  }

  /** The type of the component at a path. */
  function TypeAt(ts: seq<TypeDecl>, t: TypeId, path: seq<int>): (r: Option<TypeId>)
    requires TypesOk(ts) && t < |ts|
    ensures r.Some? ==> r.value < |ts|
    decreases t
  {
    match ts[t]
    case Alias(a) => TypeAt(ts, a, path)
    case Named(_) => if path == [] then Some(t) else None
    case ArrayOf(e, _, _) =>
      ArrayOk(ts, t);
      if path == [] then Some(t) else if 0 <= path[0] < Extent(ts[t]) then TypeAt(ts, e, path[1..]) else None
    case RecordOf(_, _, _, tag) =>
      if path == [] then Some(t)
      else
        var i := path[0] - if tag then 1 else 0;
        var fs := FieldTypes(ts, t);
        if 0 <= i < |fs| then TypeAt(ts, fs[i], path[1..]) else None
  }

  /** At path, there is a record that needs a tag. */
  predicate TaggedAt(ts: seq<TypeDecl>, t: TypeId, path: seq<int>)
    requires TypesOk(ts) && t < |ts|
  {
    TypeAt(ts, t, path).Some? && IsTagged(ts, TypeAt(ts, t, path).value)
  }

  /** Every record in a variable of type t that needs a tag has its descriptor. */
  ghost predicate TagsSet(ts: seq<TypeDecl>, t: TypeId, z: Zero, desc: TypeId -> Loc)
    requires TypesOk(ts) && t < |ts|
  {
    forall path :: TaggedAt(ts, t, path) ==> At(z, path) == Some(Ptr(desc(TypeAt(ts, t, path).value)))
  }

  // ----- which types are initialised right -----

  /** No record in t needs a tag. */
  predicate NoTags(ts: seq<TypeDecl>, t: TypeId)
    requires TypesOk(ts) && t < |ts|
    decreases t
  {
    match ts[t]
    case Named(_) => true
    case Alias(a) => NoTags(ts, a)
    case ArrayOf(e, _, _) => ArrayOk(ts, t); NoTags(ts, e)
    case RecordOf(_, _, _, tag) => !tag && var fs := FieldTypes(ts, t); forall i :: 0 <= i < |fs| ==> NoTags(ts, fs[i])
  }

  /** No record that needs a tag stands in a record without one, or in an array of
      anything but such records. */
  predicate Covered(ts: seq<TypeDecl>, t: TypeId)
    requires TypesOk(ts) && t < |ts|
    decreases t
  {
    match ts[t]
    case Named(_) => true
    case Alias(a) => Covered(ts, a)
    case ArrayOf(e, _, _) => ArrayOk(ts, t); if IsTagged(ts, Underlying(ts, e)) then Covered(ts, e) else NoTags(ts, e)
    case RecordOf(_, _, _, tag) =>
      var fs := FieldTypes(ts, t);
      forall i :: 0 <= i < |fs| ==> if tag then Covered(ts, fs[i]) else NoTags(ts, fs[i])
  }

  lemma {:induction false} NothingTagged(ts: seq<TypeDecl>, t: TypeId, path: seq<int>)
    requires TypesOk(ts) && t < |ts| && NoTags(ts, t)
    ensures !TaggedAt(ts, t, path)
    decreases t
  {
    match ts[t]
    case Named(_) =>
    case Alias(a) => NothingTagged(ts, a, path);
    case ArrayOf(e, _, _) =>
      ArrayOk(ts, t);
      if path != [] { NothingTagged(ts, e, path[1..]); }
    case RecordOf(_, _, _, _) =>
      var fs := FieldTypes(ts, t);
      if path != [] && 0 <= path[0] < |fs| { NothingTagged(ts, fs[path[0]], path[1..]); }
  }

  /** A component of an element is a component of the array. */
  lemma ElementStep(ts: seq<TypeDecl>, t: TypeId, p: seq<int>)
    requires TypesOk(ts) && t < |ts| && ts[t].ArrayOf?
    ensures ts[t].elem < t && TypeAt(ts, t, [0] + p) == TypeAt(ts, ts[t].elem, p)
  {
    ArrayOk(ts, t);
    assert ([0] + p)[1..] == p;
  }

  lemma FieldStep(ts: seq<TypeDecl>, t: TypeId, i: nat, p: seq<int>)
    requires TypesOk(ts) && t < |ts| && ts[t].RecordOf? && i < |FieldTypes(ts, t)|
    ensures TypeAt(ts, t, [if ts[t].tag then i + 1 else i] + p) == TypeAt(ts, FieldTypes(ts, t)[i], p)
  {
    assert ([if ts[t].tag then i + 1 else i] + p)[1..] == p;
  }

  lemma ElementAt(es: seq<Zero>, p: seq<int>)
    requires es != []
    ensures At(Elements(es), [0] + p) == At(es[0], p)
  {
    assert ([0] + p)[1..] == p;
  }

  lemma ComponentAt(tag: Option<Val>, cs: seq<Zero>, i: nat, p: seq<int>)
    requires i < |cs|
    ensures At(Components(tag, cs), [if tag.Some? then i + 1 else i] + p) == At(cs[i], p)
  {
    assert ([if tag.Some? then i + 1 else i] + p)[1..] == p;
  }

  /** Where zeros all over leave a tag out. */
  lemma {:induction false} LeftOut(ts: seq<TypeDecl>, t: TypeId) returns (path: seq<int>)
    requires TypesOk(ts) && t < |ts| && !NoTags(ts, t)
    ensures TaggedAt(ts, t, path) && At(AllZero(ts, t), path) == Some(Null)
    decreases t
  {
    match ts[t]
    case Alias(a) => path := LeftOut(ts, a);
    case ArrayOf(e, _, _) =>
      ArrayOk(ts, t);
      var p := LeftOut(ts, e);
      path := [0] + p;
      ElementStep(ts, t, p);
      ElementAt(AllZero(ts, t).es, p);
    case RecordOf(_, _, _, tag) =>
      if tag {
        path := [];
      } else {
        var fs := FieldTypes(ts, t);
        var i :| 0 <= i < |fs| && !NoTags(ts, fs[i]);
        var p := LeftOut(ts, fs[i]);
        path := [i] + p;
        FieldStep(ts, t, i, p);
        ComponentAt(None, AllZero(ts, t).cs, i, p);
      }
  }

  lemma {:induction false} CoveredIsSet(ts: seq<TypeDecl>, t: TypeId, desc: TypeId -> Loc, path: seq<int>)
    requires TypesOk(ts) && t < |ts| && Covered(ts, t) && TaggedAt(ts, t, path)
    ensures At(ZeroValue(ts, t, desc), path) == Some(Ptr(desc(TypeAt(ts, t, path).value)))
    decreases t
  {
    match ts[t]
    case Named(_) =>
    case Alias(a) => CoveredIsSet(ts, a, desc, path);
    case ArrayOf(e, _, _) =>
      ArrayOk(ts, t);
      if !IsTagged(ts, Underlying(ts, e)) { NothingTagged(ts, e, path[1..]); }
      CoveredIsSet(ts, e, desc, path[1..]);
    case RecordOf(_, _, _, tag) =>
      var fs := FieldTypes(ts, t);
      if path != [] {
        var i := path[0] - if tag then 1 else 0;
        if !tag { NothingTagged(ts, fs[i], path[1..]); }
        CoveredIsSet(ts, fs[i], desc, path[1..]);
        InTagged(ts, t, desc, path);
      }
  }

  /** Behind the tag, the constant of a tagged record is made of those of its fields. */
  lemma InTagged(ts: seq<TypeDecl>, t: TypeId, desc: TypeId -> Loc, path: seq<int>)
    requires TypesOk(ts) && IsTagged(ts, t) && path != [] && 1 <= path[0] <= |FieldTypes(ts, t)|
    ensures var f := FieldTypes(ts, t)[path[0] - 1];
            && At(ZeroValue(ts, t, desc), path) == At(ZeroValue(ts, f, desc), path[1..])
            && TypeAt(ts, t, path) == TypeAt(ts, f, path[1..])
  {
  }

  /** Where getZeroValue leaves a tag out. */
  lemma {:induction false} Uncovered(ts: seq<TypeDecl>, t: TypeId, desc: TypeId -> Loc) returns (path: seq<int>)
    requires TypesOk(ts) && t < |ts| && !Covered(ts, t)
    ensures TaggedAt(ts, t, path) && At(ZeroValue(ts, t, desc), path) == Some(Null)
    decreases t
  {
    match ts[t]
    case Alias(a) => path := Uncovered(ts, a, desc);
    case ArrayOf(e, _, _) =>
      ArrayOk(ts, t);
      if IsTagged(ts, Underlying(ts, e)) {
        var p := Uncovered(ts, e, desc);
        path := [0] + p;
        ElementStep(ts, t, p);
        ElementAt(ZeroValue(ts, t, desc).es, p);
      } else {
        path := LeftOut(ts, t);
      }
    case RecordOf(_, _, _, tag) =>
      var fs := FieldTypes(ts, t);
      if tag {
        var i :| 0 <= i < |fs| && !Covered(ts, fs[i]);
        var p := Uncovered(ts, fs[i], desc);
        path := [i + 1] + p;
        FieldStep(ts, t, i, p);
        ComponentAt(Some(Ptr(desc(t))), ZeroValue(ts, t, desc).cs, i, p);
      } else {
        path := LeftOut(ts, t);
      }
  }

  /** A variable starts with all its tags exactly if its type is covered. */
  lemma TagsSetIff(ts: seq<TypeDecl>, t: TypeId, desc: TypeId -> Loc)
    requires TypesOk(ts) && t < |ts|
    ensures TagsSet(ts, t, ZeroValue(ts, t, desc), desc) <==> Covered(ts, t)
  {
    if Covered(ts, t) {
      forall path | TaggedAt(ts, t, path)
        ensures At(ZeroValue(ts, t, desc), path) == Some(Ptr(desc(TypeAt(ts, t, path).value)))
      {
        CoveredIsSet(ts, t, desc, path);
      }
    } else {
      var path := Uncovered(ts, t, desc);
    }
  }

  // ----- as a value in memory -----

  /** At least the paths at which there is something. */
  function Paths(z: Zero): set<seq<int>> {
    match z
    case Word(_) => {[]}
    case Elements(es) => set i, p | 0 <= i < |es| && p in Paths(es[i]) :: [i] + p
    case Components(tag, cs) =>
      var k := if tag.Some? then 1 else 0;
      {[]} + set i, p | 0 <= i < |cs| && p in Paths(cs[i]) :: [i + k] + p
  }

  lemma {:induction false} InPaths(z: Zero, path: seq<int>)
    requires At(z, path).Some?
    ensures path in Paths(z)
    decreases |path|
  {
    if path != [] {
      assert path == [path[0]] + path[1..];
      match z
      case Word(_) =>
      case Elements(es) => InPaths(es[path[0]], path[1..]);
      case Components(tag, cs) => InPaths(cs[path[0] - if tag.Some? then 1 else 0], path[1..]);
    }
  }

  function ZeroVal(z: Zero): Val {
    if z.Word? then z.v else Agg(map p | p in Paths(z) && At(z, p).Some? :: At(z, p).value)
  }

  /** The aggregate holds what the constant holds. */
  lemma ZeroParts(z: Zero, path: seq<int>)
    requires !z.Word?
    ensures var parts := PartsOf(ZeroVal(z));
            (path in parts <==> At(z, path).Some?) && (path in parts ==> Some(parts[path]) == At(z, path))
  {
    if At(z, path).Some? { InPaths(z, path); }
  }

  /** Only scalars are words. */
  lemma {:induction false} WordsAreScalars(ts: seq<TypeDecl>, t: TypeId, desc: TypeId -> Loc)
    requires TypesOk(ts) && t < |ts|
    ensures ZeroValue(ts, t, desc).Word? <==> ts[Underlying(ts, t)].Named?
    decreases t
  {
    match ts[t]
    case Alias(a) => WordsAreScalars(ts, a, desc);
    case ArrayOf(_, _, _) => ArrayOk(ts, t);
    case _ =>
  }

  // ----- as a constant of the lowered type -----

  /** z is a constant of type l whose words are all zero, tags aside. */
  predicate FitsType(z: Zero, l: Lowered)
    decreases z
  {
    match z
    case Word(v) => (l == Int64 && v == Int(0)) || (l == Float && v == Val.Real(0.0)) || (l == Int1 && v == Bool(false))
    case Elements(es) => l.Array? && l.n == |es| && forall i :: 0 <= i < |es| ==> FitsType(es[i], l.elem)
    case Components(tag, cs) =>
      var k := if tag.Some? then 1 else 0;
      && l.Struct? && |l.parts| == |cs| + k && (k == 1 ==> l.parts[0] == Pointer)
      && forall i :: 0 <= i < |cs| ==> FitsType(cs[i], l.parts[i + k])
  }

  lemma {:induction false} AllZeroFits(ts: seq<TypeDecl>, t: TypeId)
    requires TypesOk(ts) && t < |ts|
    ensures FitsType(AllZero(ts, t), Convert(ts, t))
    decreases t
  {
    match ts[t]
    case Named(_) =>
    case Alias(a) => AllZeroFits(ts, a);
    case ArrayOf(e, _, _) => ArrayOk(ts, t); AllZeroFits(ts, e);
    case RecordOf(_, _, _, _) =>
      var fs := FieldTypes(ts, t);
      forall i | 0 <= i < |fs| ensures FitsType(AllZero(ts, fs[i]), Convert(ts, fs[i])) { AllZeroFits(ts, fs[i]); }
  }

  /** The constant has the lowered type of the variable, scalars are zero, and there
      is a tag exactly where the type has one. */
  lemma {:induction false} ZeroValueFits(ts: seq<TypeDecl>, t: TypeId, desc: TypeId -> Loc)
    requires TypesOk(ts) && t < |ts|
    ensures FitsType(ZeroValue(ts, t, desc), Convert(ts, t))
    decreases t
  {
    AllZeroFits(ts, t);
    match ts[t]
    case Named(_) =>
    case Alias(a) => ZeroValueFits(ts, a, desc);
    case ArrayOf(e, _, _) => ArrayOk(ts, t); ZeroValueFits(ts, e, desc);
    case RecordOf(_, _, _, _) =>
      var fs := FieldTypes(ts, t);
      forall i | 0 <= i < |fs| ensures FitsType(ZeroValue(ts, fs[i], desc), Convert(ts, fs[i])) {
        ZeroValueFits(ts, fs[i], desc);
      }
  }
}
