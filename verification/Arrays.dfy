/** Arrays of several dimensions: nested array types, and the order their
    elements have in memory. */
module Arrays {
  import opened Source
  import opened Types
  import opened Semantics

  datatype Dim = Dim(low: int, high: int)

  predicate DimOk(d: Dim) { d.low <= d.high }

  predicate DimsOk(ds: seq<Dim>) { forall i :: 0 <= i < |ds| ==> DimOk(ds[i]) }

  function Extent(d: Dim): int { d.high - d.low + 1 }

  // ----- the type -----

  /** t is ds of e: an array per dimension, the first outermost. */
  predicate IsNested(ts: seq<TypeDecl>, t: TypeId, ds: seq<Dim>, e: TypeId)
    decreases |ds|
  {
    if ds == [] then t == e
    else
      && t < |ts| && ts[t].ArrayOf? && ts[t].low == ds[0].low && ts[t].high == ds[0].high
      && IsNested(ts, ts[t].elem, ds[1..], e)
  }

  lemma {:induction false} NestedStays(ts: seq<TypeDecl>, ts1: seq<TypeDecl>, t: TypeId, ds: seq<Dim>, e: TypeId)
    requires IsNested(ts, t, ds, e) && ts <= ts1
    ensures IsNested(ts1, t, ds, e)
    decreases |ds|
  {
    if ds != [] { NestedStays(ts, ts1, ts[t].elem, ds[1..], e); }
  }

  /** ARRAY [l1..h1], [l2..h2], ... OF e, built from the inside outwards. */
  method BuildArrayType(sema: Sema, lows: seq<int>, highs: seq<int>, e: TypeId) returns (t: TypeId, ghost ds: seq<Dim>)
    requires sema.Valid() && |lows| == |highs| && e < |sema.h.types|
    modifies sema
    ensures sema.Valid() && |ds| == |lows| && DimsOk(ds) && IsNested(sema.h.types, t, ds, e)
    ensures forall i :: 0 <= i < |lows| && lows[i] <= highs[i] ==> ds[i] == Dim(lows[i], highs[i])
    ensures sema.errors == old(sema.errors) ==> forall i :: 0 <= i < |lows| ==> lows[i] <= highs[i]
    ensures old(sema.errors) <= sema.errors && old(sema.h.types) <= sema.h.types
  {
    t, ds := e, [];
    var i := |lows|;
    while i > 0
      invariant sema.Valid() && 0 <= i <= |lows| && |ds| == |lows| - i && DimsOk(ds) && t < |sema.h.types|
      invariant IsNested(sema.h.types, t, ds, e)
      invariant forall k :: i <= k < |lows| && lows[k] <= highs[k] ==> ds[k - i] == Dim(lows[k], highs[k])
      invariant sema.errors == old(sema.errors) ==> forall k :: i <= k < |lows| ==> lows[k] <= highs[k]
      invariant old(sema.errors) <= sema.errors && old(sema.h.types) <= sema.h.types
    {
      i := i - 1;
      ghost var ts, t0 := sema.h.types, t;
      t := sema.ActOnArrayType(Some(lows[i]), Some(highs[i]), t);
      ghost var b := Bounds(Some(lows[i]), Some(highs[i]));
      NestedStays(ts, sema.h.types, t0, ds, e);
      ghost var inner := ds;
      ds := [Dim(b.0, b.1)] + ds;
      assert ds[1..] == inner && sema.h.types[t] == ArrayOf(t0, b.0, b.1);
    }
  }

  // ----- the order of the elements -----

  /** How many elements ds has. */
  function Count(ds: seq<Dim>): (n: int)
    requires DimsOk(ds)
    ensures n >= 1
  {
    if ds == [] then 1 else
      Positive(Extent(ds[0]), Count(ds[1..]));
      Extent(ds[0]) * Count(ds[1..])
  }

  lemma Positive(a: int, b: int)
    requires a >= 1 && b >= 1
    ensures a * b >= 1
  {
  }

  predicate InRange(ds: seq<Dim>, idx: seq<int>) {
    |idx| == |ds| && forall i :: 0 <= i < |ds| ==> ds[i].low <= idx[i] <= ds[i].high
  }

  /** What the chain of address computations adds up to, in elements: each index
      less its lower bound, times the elements of what it selects. */
  function Offset(ds: seq<Dim>, idx: seq<int>): int
    requires DimsOk(ds) && |idx| == |ds|
  {
    if ds == [] then 0 else (idx[0] - ds[0].low) * Count(ds[1..]) + Offset(ds[1..], idx[1..])
  }

  function Indices(ds: seq<Dim>, k: int): (idx: seq<int>)
    requires DimsOk(ds)
    ensures |idx| == |ds|
  {
    if ds == [] then [] else
      var n := Count(ds[1..]);
      [ds[0].low + k / n] + Indices(ds[1..], k % n)
  }

  lemma InExtent(a: int, e: int, r: int, n: int)
    requires 0 <= a < e && 0 <= r < n
    ensures 0 <= a * n + r < e * n && (a * n + r) / n == a && (a * n + r) % n == r
  {
    Rows(a, e, n);
    Rows(-1, a, n);
    DivMod(a, r, n);
  }

  lemma DivMod(a: int, r: int, n: int)
    requires 0 <= r < n && 0 <= a
    ensures (a * n + r) / n == a && (a * n + r) % n == r
  {
    var x := a * n + r;
    var q := x / n;
    assert q * n + x % n == x;
    Rows(a, q, n);
    Rows(q, a, n);
  }

  /** Offsets of indices in range are 0 .. Count - 1, and say the indices. */
  lemma {:induction false} OffsetInRange(ds: seq<Dim>, idx: seq<int>)
    requires DimsOk(ds) && InRange(ds, idx)
    ensures 0 <= Offset(ds, idx) < Count(ds)
    ensures Indices(ds, Offset(ds, idx)) == idx
  {
    if ds != [] {
      OffsetInRange(ds[1..], idx[1..]);
      InExtent(idx[0] - ds[0].low, Extent(ds[0]), Offset(ds[1..], idx[1..]), Count(ds[1..]));
    }
  }

  /** Every such number is the offset of indices in range. */
  lemma {:induction false} IndicesInRange(ds: seq<Dim>, k: int)
    requires DimsOk(ds) && 0 <= k < Count(ds)
    ensures InRange(ds, Indices(ds, k)) && Offset(ds, Indices(ds, k)) == k
  {
    if ds != [] {
      var n := Count(ds[1..]);
      Quotient(k, Extent(ds[0]), n);
      IndicesInRange(ds[1..], k % n);
      assert Indices(ds, k)[1..] == Indices(ds[1..], k % n);
    }
  }

  lemma Quotient(k: int, e: int, n: int)
    requires 0 <= k < e * n && n >= 1
    ensures 0 <= k / n < e && 0 <= k % n < n && (k / n) * n + k % n == k
  {
    assert (k / n) * n + k % n == k;
    Rows(e - 1, k / n, n);
  }

  /** Row-major: indices that come first, compared from the left, are stored first. */
  predicate Before(a: seq<int>, b: seq<int>)
    requires |a| == |b|
  {
    a != [] && (a[0] < b[0] || (a[0] == b[0] && Before(a[1..], b[1..])))
  }

  lemma {:induction false} RowMajor(ds: seq<Dim>, a: seq<int>, b: seq<int>)
    requires DimsOk(ds) && InRange(ds, a) && InRange(ds, b)
    ensures Offset(ds, a) < Offset(ds, b) <==> Before(a, b)
  {
    if ds != [] {
      var n := Count(ds[1..]);
      OffsetInRange(ds[1..], a[1..]);
      OffsetInRange(ds[1..], b[1..]);
      if a[0] == b[0] {
        RowMajor(ds[1..], a[1..], b[1..]);
      } else if a[0] < b[0] {
        Rows(a[0] - ds[0].low, b[0] - ds[0].low, n);
      } else {
        Rows(b[0] - ds[0].low, a[0] - ds[0].low, n);
      }
    }
  }

  lemma Rows(i: int, j: int, n: int)
    requires n >= 1
    ensures i < j ==> i * n + n <= j * n
  {
    if i < j { assert (i + 1) * n <= j * n; }
  }

  // ----- the index as a machine integer -----

  /** A 64-bit two's complement integer. */
  function Wrap64(x: int): int {
    (x + 0x8000_0000_0000_0000) % 0x1_0000_0000_0000_0000 - 0x8000_0000_0000_0000
  }

  /** Subtracting the lower bound does not wrap for an index in range, if the
      extent is a positive 64-bit integer. */
  lemma NormalizedIndex(d: Dim, i: int)
    requires DimOk(d) && Wrap64(Extent(d)) == Extent(d) && d.low <= i <= d.high
    ensures Wrap64(i - d.low) == i - d.low
  {
  }
}
