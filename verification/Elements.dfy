/** Elements of arrays of several dimensions, from the indices in the source to the
    place in memory: the lowered type, the address the selectors compute, and how
    many bytes that is from the start of the array. */
module Elements {
  import opened Ir
  import opened Source
  import opened Types
  import opened Arrays

  // ----- the lowered type -----

  function Nested(ds: seq<Dim>, e: Lowered): Lowered {
    if ds == [] then e else Array(Nested(ds[1..], e), Extent(ds[0]))
  }

  /** ARRAY ds OF e is lowered to an array for each dimension, of the extent of it. */
  lemma {:induction false} NestedConverts(ts: seq<TypeDecl>, t: TypeId, ds: seq<Dim>, e: TypeId)
    requires TypesOk(ts) && t < |ts| && IsNested(ts, t, ds, e)
    ensures e < |ts| && DimsOk(ds) && Convert(ts, t) == Nested(ds, Convert(ts, e))
    decreases |ds|
  {
    if ds != [] {
      assert DeclOk(ts, t);
      NestedConverts(ts, ts[t].elem, ds[1..], e);
      assert ds == [ds[0]] + ds[1..];
    }
  }

  // ----- the address -----

  /** d[es[0]][es[1]]..., for a d of the dimensions ds. */
  function Selected(d: Desig, ds: seq<Dim>, es: seq<Expr>): Desig
    requires |es| == |ds|
    decreases |ds|
  {
    if ds == [] then d else Selected(Index(d, es[0], ds[0].low), ds[1..], es[1..])
  }

  function EvalList(ks: Kinds, w: World, es: seq<Expr>, s: Store): (r: (seq<Val>, Store))
    ensures |r.0| == |es|
  {
    if es == [] then ([], s)
    else
      var (v, s1) := EvalExpr(ks, w, es[0], s);
      var (vs, s2) := EvalList(ks, w, es[1..], s1);
      ([v] + vs, s2)
  }

  function Ints(idx: seq<int>): seq<Val> { seq(|idx|, i requires 0 <= i < |idx| => Int(idx[i])) }

  /** Each index less its lower bound, as a 64-bit integer. */
  function Normalized(ds: seq<Dim>, idx: seq<int>): (r: seq<int>)
    requires |idx| == |ds|
    ensures |r| == |ds|
  {
    seq(|ds|, i requires 0 <= i < |ds| => Wrap64(idx[i] - ds[i].low))
  }

  /** Integers are subtracted in 64 bits. */
  ghost predicate Subtracts64(w: World) {
    forall x: int, y: int {:trigger w.arith(WrapSub, Int(x), Int(y))} ::
      w.arith(WrapSub, Int(x), Int(y)) == Int(Wrap64(x - y))
  }

  /** A chain of selectors evaluates its indices from the left, once each, and
      appends them normalised to the address of the array. */
  lemma {:induction false} SelectedAddress(ks: Kinds, w: World, d: Desig, ds: seq<Dim>, es: seq<Expr>, idx: seq<int>,
                                           l: Loc, s: Store)
    requires Subtracts64(w) && |es| == |ds| == |idx|
    requires var (a, s1) := EvalDesig(ks, w, d, s); a == Ptr(l) && EvalList(ks, w, es, s1).0 == Ints(idx)
    ensures EvalDesig(ks, w, Selected(d, ds, es), s)
            == (Ptr(Loc(l.root, l.path + Normalized(ds, idx))), EvalList(ks, w, es, EvalDesig(ks, w, d, s).1).1)
    decreases |ds|
  {
    var s1 := EvalDesig(ks, w, d, s).1;
    if ds == [] {
      assert l.path + Normalized(ds, idx) == l.path;
    } else {
      var i := Wrap64(idx[0] - ds[0].low);
      FirstIndex(ks, w, d, ds[0].low, es, idx, l, s);
      SelectedAddress(ks, w, Index(d, es[0], ds[0].low), ds[1..], es[1..], idx[1..], Loc(l.root, l.path + [i]), s);
      assert l.path + [i] + Normalized(ds[1..], idx[1..]) == l.path + Normalized(ds, idx);
    }
  }

  lemma FirstIndex(ks: Kinds, w: World, d: Desig, low: int, es: seq<Expr>, idx: seq<int>, l: Loc, s: Store)
    requires Subtracts64(w) && |es| == |idx| > 0
    requires var (a, s1) := EvalDesig(ks, w, d, s); a == Ptr(l) && EvalList(ks, w, es, s1).0 == Ints(idx)
    ensures var (a, s2) := EvalDesig(ks, w, Index(d, es[0], low), s);
            && a == Ptr(Loc(l.root, l.path + [Wrap64(idx[0] - low)]))
            && EvalList(ks, w, es[1..], s2).0 == Ints(idx[1..])
            && EvalList(ks, w, es[1..], s2).1 == EvalList(ks, w, es, EvalDesig(ks, w, d, s).1).1
  {
    var (v, s2) := EvalExpr(ks, w, es[0], EvalDesig(ks, w, d, s).1);
    var vs := EvalList(ks, w, es[1..], s2).0;
    assert [v] + vs == Ints(idx);
    assert v == ([v] + vs)[0] && vs == ([v] + vs)[1..];
    assert Ints(idx)[1..] == Ints(idx[1..]);
  }

  // ----- the place in memory -----

  /** The bytes of a type: those of an array are those of its elements, one after
      the other; unit gives the others. */
  function Size(t: Lowered, unit: Lowered -> nat): int {
    if t.Array? then t.n * Size(t.elem, unit) else unit(t)
  }

  /** How far from its start the element of an array at a path is. */
  function ByteOffset(t: Lowered, path: seq<int>, unit: Lowered -> nat): int {
    if path == [] || !t.Array? then 0
    else path[0] * Size(t.elem, unit) + ByteOffset(t.elem, path[1..], unit)
  }

  /** The extents are 64-bit integers. */
  predicate Fits64(ds: seq<Dim>) { forall i :: 0 <= i < |ds| ==> Wrap64(Extent(ds[i])) == Extent(ds[i]) }

  lemma {:induction false} NestedSize(ds: seq<Dim>, e: Lowered, unit: Lowered -> nat)
    requires DimsOk(ds)
    ensures Size(Nested(ds, e), unit) == Count(ds) * Size(e, unit)
  {
    if ds != [] {
      NestedSize(ds[1..], e, unit);
      Assoc(Extent(ds[0]), Count(ds[1..]), Size(e, unit));
    }
  }

  lemma Assoc(a: int, b: int, c: int)
    ensures a * (b * c) == a * b * c
  {
  }

  lemma {:induction false} NestedOffset(ds: seq<Dim>, idx: seq<int>, e: Lowered, unit: Lowered -> nat)
    requires DimsOk(ds) && Fits64(ds) && InRange(ds, idx)
    ensures ByteOffset(Nested(ds, e), Normalized(ds, idx), unit) == Offset(ds, idx) * Size(e, unit)
  {
    if ds != [] {
      NormalizedIndex(ds[0], idx[0]);
      NestedSize(ds[1..], e, unit);
      NestedOffset(ds[1..], idx[1..], e, unit);
      assert Normalized(ds, idx)[1..] == Normalized(ds[1..], idx[1..]);
      Summed(idx[0] - ds[0].low, Count(ds[1..]), Offset(ds[1..], idx[1..]), Size(e, unit));
    }
  }

  lemma Summed(a: int, n: int, r: int, z: int)
    ensures a * (n * z) + r * z == (a * n + r) * z
  {
  }

  /** In an array of type t, declared as ARRAY ds OF e, indices in range select the
      element whose offset is that of the indices, in elements. */
  lemma ElementPlace(ks: Kinds, w: World, ts: seq<TypeDecl>, t: TypeId, e: TypeId, d: Desig, ds: seq<Dim>,
                     es: seq<Expr>, idx: seq<int>, l: Loc, s: Store, unit: Lowered -> nat)
    requires Subtracts64(w) && TypesOk(ts) && t < |ts| && IsNested(ts, t, ds, e) && Fits64(ds) && InRange(ds, idx)
    requires |es| == |ds| && var (a, s1) := EvalDesig(ks, w, d, s);
             a == Ptr(l) && EvalList(ks, w, es, s1).0 == Ints(idx)
    ensures e < |ts| && DimsOk(ds)
    ensures var a := EvalDesig(ks, w, Selected(d, ds, es), s).0;
            && a.Ptr? && Within(a.loc, l)
            && ByteOffset(Convert(ts, t), a.loc.path[|l.path|..], unit) == Offset(ds, idx) * Size(Convert(ts, e), unit)
  {
    SelectedAddress(ks, w, d, ds, es, idx, l, s);
    SuffixIs(l.path, Normalized(ds, idx));
    NestedConverts(ts, t, ds, e);
    NestedOffset(ds, idx, Convert(ts, e), unit);
  }

  /** Elements selected by different indices do not overlap, and all lie in the array. */
  lemma ElementsApart(ts: seq<TypeDecl>, t: TypeId, e: TypeId, ds: seq<Dim>, a: seq<int>, b: seq<int>,
                      unit: Lowered -> nat)
    requires TypesOk(ts) && t < |ts| && IsNested(ts, t, ds, e) && Fits64(ds) && InRange(ds, a) && InRange(ds, b) &&
             a != b
    ensures e < |ts|
    ensures var (n, x, y) := (Size(Convert(ts, e), unit), ByteOffset(Convert(ts, t), Normalized(ds, a), unit),
                              ByteOffset(Convert(ts, t), Normalized(ds, b), unit));
            0 <= x && x + n <= Size(Convert(ts, t), unit) && (x + n <= y || y + n <= x)
  {
    NestedConverts(ts, t, ds, e);
    var n := Size(Convert(ts, e), unit);
    NestedOffset(ds, a, Convert(ts, e), unit);
    NestedOffset(ds, b, Convert(ts, e), unit);
    NestedSize(ds, Convert(ts, e), unit);
    OffsetInRange(ds, a);
    OffsetInRange(ds, b);
    SizeIsNat(ts, e, unit);
    Apart(Offset(ds, a), Offset(ds, b), Count(ds), n);
  }

  lemma Apart(i: int, j: int, c: int, n: int)
    requires 0 <= i < c && 0 <= j < c && i != j && n >= 0
    ensures 0 <= i * n && i * n + n <= c * n && (i * n + n <= j * n || j * n + n <= i * n)
  {
    Spread(0, i, n);
    Spread(i + 1, c, n);
    Spread(i + 1, j, n);
    Spread(j + 1, i, n);
  }

  lemma Spread(i: int, j: int, n: int)
    requires n >= 0
    ensures i <= j ==> i * n <= j * n
  {
    if i <= j { assert (j - i) * n >= 0; }
  }

  lemma {:induction false} SizeIsNat(ts: seq<TypeDecl>, t: TypeId, unit: Lowered -> nat)
    requires TypesOk(ts) && t < |ts|
    ensures Size(Convert(ts, t), unit) >= 0
    decreases t
  {
    assert DeclOk(ts, t);
    match ts[t]
    case Alias(a) => SizeIsNat(ts, a, unit);
    case ArrayOf(e, low, high) =>
      SizeIsNat(ts, e, unit);
      Spread(0, high - low + 1, Size(Convert(ts, e), unit));
    case _ =>
  }
}
