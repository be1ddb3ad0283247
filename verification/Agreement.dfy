/** Methods that override others have their signatures: when Sema's checks, made
    one declaration at a time, add up to that. */
module Agreement {
  import opened Source
  import opened Types
  import opened Methods
  import opened Registration

  /** The record's own method of that name has the signature of the inherited. */
  ghost predicate AgreesAt(s: State, t: TypeId, name: Name)
    requires StateOk(s) && IsRecord(s.h, t)
  {
    var base := Base(s.h.types, t);
    base.Some? && OwnImpl(s.h, t, name).Some? && MostDerived(s.h, base.value, name).Some? ==>
      SameSig(s.h.types, s.h.procs[MostDerived(s.h, base.value, name).value], s.h.procs[OwnImpl(s.h, t, name).value])
  }

  ghost predicate Agreed(s: State)
    requires StateOk(s)
  {
    forall t: TypeId, name: Name {:trigger AgreesAt(s, t, name)} :: IsRecord(s.h, t) ==> AgreesAt(s, t, name)
  }

  /** Then dispatch at run time always finds the signature checked statically: the
      types spelled out alike, and lowered alike. */
  lemma OverridesAgree(s: State, t: TypeId, b: TypeId, name: Name)
    requires StateOk(s) && Agreed(s) && IsRecord(s.h, t) && IsRecord(s.h, b) && Extends(s.h.types, t, b)
    requires MostDerived(s.h, b, name).Some?
    ensures MostDerived(s.h, t, name).Some?
    ensures var (p, q) := (s.h.procs[MostDerived(s.h, b, name).value], s.h.procs[MostDerived(s.h, t, name).value]);
            Spelled(s.h.types, p) == Spelled(s.h.types, q) && LoweredSig(s.h.types, p) == LoweredSig(s.h.types, q)
  {
    OverridesSame(s, t, b, name);
    SameSigLowered(s.h.types, s.h.procs[MostDerived(s.h, b, name).value], s.h.procs[MostDerived(s.h, t, name).value]);
  }

  lemma {:induction false} OverridesSame(s: State, t: TypeId, b: TypeId, name: Name)
    requires StateOk(s) && Agreed(s) && IsRecord(s.h, t) && IsRecord(s.h, b) && Extends(s.h.types, t, b)
    requires MostDerived(s.h, b, name).Some?
    ensures MostDerived(s.h, t, name).Some?
    ensures SameSig(s.h.types, s.h.procs[MostDerived(s.h, b, name).value], s.h.procs[MostDerived(s.h, t, name).value])
    decreases t
  {
    if t == b {
      SameSigRefl(s.h.types, s.h.procs[MostDerived(s.h, b, name).value]);
    } else {
      var u := Base(s.h.types, t).value;
      OverridesSame(s, u, b, name);
      if OwnImpl(s.h, t, name).Some? {
        assert AgreesAt(s, t, name);
        SameSigTrans(s.h.types, s.h.procs[MostDerived(s.h, b, name).value], s.h.procs[MostDerived(s.h, u, name).value],
                     s.h.procs[OwnImpl(s.h, t, name).value]);
      }
    }
  }

  lemma SameSigRefl(ts: seq<TypeDecl>, p: ProcDecl)
    requires TypesOk(ts) && SigIn(ts, p)
    ensures SameSig(ts, p, p)
  {
  }

  /** What a name stands for, away from a new method m of record t. */
  lemma {:induction false} Through(s: State, t: TypeId, m: ProcId, u: TypeId, name: Name)
    requires StateOk(s) && IsRecord(s.h, t) && m < |s.h.procs| && StateOk(AddMethod(s, t, m)) && IsRecord(s.h, u)
    requires NameOf(s.h, m) !in Names(s.h, s.h.types[t].methods) &&
             !(s.h.procs[m].prototype && s.h.procs[m].definition.Some?)
    ensures var h, h1 := s.h, AddMethod(s, t, m).h;
            && OwnImpl(h1, u, name) == (if u == t && name == NameOf(h, m) then Some(m) else OwnImpl(h, u, name))
            && (MostDerived(h1, u, name) == MostDerived(h, u, name)
                || (name == NameOf(h, m) && MostDerived(h1, u, name) == Some(m)
                    && Extends(h.types, u, t) && MostDerived(h, u, name) == MostDerived(h, t, name)))
            && (name == NameOf(h, m) && Extends(h.types, u, t) && MostDerived(h, u, name).None? ==>
                MostDerived(h1, u, name) == Some(m))
    decreases u
  {
    var h, h1 := s.h, AddMethod(s, t, m).h;
    var ms, ms1 := h.types[u].methods, h1.types[u].methods;
    if u == t {
      assert Names(h1, ms1) == Names(h, ms) + [NameOf(h, m)];
      if name in Names(h1, ms1) { IndexInSnoc(Names(h, ms), NameOf(h, m), name); }
      if name == NameOf(h, m) { assert Names(h1, ms1)[|ms|] == name; }
      if name in Names(h, ms) { assert Names(h1, ms1)[IndexIn(Names(h, ms), name)] == name; }
    } else {
      assert Names(h1, ms1) == Names(h, ms);
    }
    if Base(h.types, u).Some? { Through(s, t, m, Base(h.types, u).value, name); }
  }

  /** No extension of t already has, under the name of p, a method that overrides
      nothing and has another signature. */
  ghost predicate NoConflictBelow(s: State, t: TypeId, p: ProcDecl)
    requires StateOk(s) && IsRecord(s.h, t) && SigIn(s.h.types, p)
  {
    MostDerived(s.h, t, p.name).None? ==>
      forall u: TypeId {:trigger OwnImpl(s.h, u, p.name)} ::
        (u != t && IsRecord(s.h, u) && Extends(s.h.types, u, t) && OwnImpl(s.h, u, p.name).Some?
         && MostDerived(s.h, Base(s.h.types, u).value, p.name).None?)
        ==> SameSig(s.h.types, p, s.h.procs[OwnImpl(s.h, u, p.name).value])
  }

  /** A new method that agrees with the inherited one keeps the agreement exactly
      if it agrees with the methods that now override it. */
  lemma AddMethodAgrees(s: State, t: TypeId, m: ProcId)
    requires StateOk(s) && Agreed(s) && IsRecord(s.h, t) && m < |s.h.procs| && StateOk(AddMethod(s, t, m))
    requires NameOf(s.h, m) !in Names(s.h, s.h.types[t].methods) &&
             !(s.h.procs[m].prototype && s.h.procs[m].definition.Some?)
    requires var q := MostDerived(s.h, t, NameOf(s.h, m));
             q.Some? ==> SameSig(s.h.types, s.h.procs[q.value], s.h.procs[m])
    ensures Agreed(AddMethod(s, t, m)) <==> NoConflictBelow(s, t, s.h.procs[m])
  {
    var s1, n := AddMethod(s, t, m), NameOf(s.h, m);
    if NoConflictBelow(s, t, s.h.procs[m]) {
      forall u: TypeId, name: Name | IsRecord(s1.h, u) ensures AgreesAt(s1, u, name) {
        NewMethodAgreesAt(s, t, m, u, name);
      }
    }
    if Agreed(s1) && MostDerived(s.h, t, n).None? {
      forall u: TypeId | u != t && IsRecord(s.h, u) && Extends(s.h.types, u, t) && OwnImpl(s.h, u, n).Some?
                         && MostDerived(s.h, Base(s.h.types, u).value, n).None?
        ensures SameSig(s.h.types, s.h.procs[m], s.h.procs[OwnImpl(s.h, u, n).value])
      {
        assert AgreesAt(s1, u, n);
        OverriderAgrees(s, t, m, u);
      }
    }
  }

  lemma OverriderAgrees(s: State, t: TypeId, m: ProcId, u: TypeId)
    requires StateOk(s) && IsRecord(s.h, t) && m < |s.h.procs| && StateOk(AddMethod(s, t, m)) && IsRecord(s.h, u) &&
             u != t
    requires NameOf(s.h, m) !in Names(s.h, s.h.types[t].methods) &&
             !(s.h.procs[m].prototype && s.h.procs[m].definition.Some?)
    requires Extends(s.h.types, u, t) && OwnImpl(s.h, u, NameOf(s.h, m)).Some?
    requires MostDerived(s.h, Base(s.h.types, u).value, NameOf(s.h, m)).None? &&
             AgreesAt(AddMethod(s, t, m), u, NameOf(s.h, m))
    ensures SameSig(s.h.types, s.h.procs[m], s.h.procs[OwnImpl(s.h, u, NameOf(s.h, m)).value])
  {
    var n := NameOf(s.h, m);
    Through(s, t, m, u, n);
    Through(s, t, m, Base(s.h.types, u).value, n);
    SameSigGrows(s.h.types, AddMethod(s, t, m).h.types, s.h.procs[m], s.h.procs[OwnImpl(s.h, u, n).value]);
  }

  lemma NewMethodAgreesAt(s: State, t: TypeId, m: ProcId, u: TypeId, name: Name)
    requires StateOk(s) && Agreed(s) && IsRecord(s.h, t) && m < |s.h.procs| && StateOk(AddMethod(s, t, m))
    requires NameOf(s.h, m) !in Names(s.h, s.h.types[t].methods) &&
             !(s.h.procs[m].prototype && s.h.procs[m].definition.Some?)
    requires var q := MostDerived(s.h, t, NameOf(s.h, m));
             q.Some? ==> SameSig(s.h.types, s.h.procs[q.value], s.h.procs[m])
    requires NoConflictBelow(s, t, s.h.procs[m]) && IsRecord(s.h, u)
    ensures AgreesAt(AddMethod(s, t, m), u, name)
  {
    var (ts, ts1, ps) := (s.h.types, AddMethod(s, t, m).h.types, s.h.procs);
    var base := Base(ts, u);
    assert AgreesAt(s, u, name);
    Through(s, t, m, u, name);
    if base.Some? {
      Through(s, t, m, base.value, name);
      var p, q := OwnImpl(AddMethod(s, t, m).h, u, name), MostDerived(AddMethod(s, t, m).h, base.value, name);
      if p.Some? && q.Some? {
        NewPairAgrees(s, t, m, u, name, p.value, q.value);
        SameSigGrows(ts, ts1, ps[q.value], ps[p.value]);
      }
    }
  }

  /** The same, said of the methods p and q the name now stands for. */
  lemma NewPairAgrees(s: State, t: TypeId, m: ProcId, u: TypeId, name: Name, p: ProcId, q: ProcId)
    requires StateOk(s) && IsRecord(s.h, t) && m < |s.h.procs| && IsRecord(s.h, u) && AgreesAt(s, u, name)
    requires NameOf(s.h, m) !in Names(s.h, s.h.types[t].methods)
    requires var q := MostDerived(s.h, t, NameOf(s.h, m));
             q.Some? ==> SameSig(s.h.types, s.h.procs[q.value], s.h.procs[m])
    requires NoConflictBelow(s, t, s.h.procs[m]) && Base(s.h.types, u).Some? && p < |s.h.procs| && q < |s.h.procs|
    requires if u == t && name == NameOf(s.h, m) then p == m else OwnImpl(s.h, u, name) == Some(p)
    requires var b := Base(s.h.types, u).value;
             MostDerived(s.h, b, name) == Some(q)
             || (name == NameOf(s.h, m) && q == m && Extends(s.h.types, b, t) &&
                 MostDerived(s.h, b, name) == MostDerived(s.h, t, name))
    ensures SameSig(s.h.types, s.h.procs[q], s.h.procs[p])
  {
    var (ts, ps) := (s.h.types, s.h.procs);
    var q0 := MostDerived(s.h, Base(ts, u).value, name);
    if q0 != Some(q) && q0.Some? { SameSigBack(ts, ps[q0.value], ps[m], ps[p]); }
  }

  lemma SameSigBack(ts: seq<TypeDecl>, p: ProcDecl, q: ProcDecl, r: ProcDecl)
    requires TypesOk(ts) && SigIn(ts, p) && SigIn(ts, q) && SigIn(ts, r) && SameSig(ts, p, q) && SameSig(ts, p, r)
    ensures SameSig(ts, q, r)
  {
    SameSigSym(ts, p, q);
    SameSigTrans(ts, q, p, r);
  }

  function Swap(x: Option<ProcId>, o: ProcId, m: ProcId): Option<ProcId> { if x == Some(o) then Some(m) else x }

  /** What a name stands for once o is implemented by m. */
  lemma {:induction false} Swapped(s: State, t: TypeId, o: ProcId, m: ProcId, u: TypeId, name: Name)
    requires StateOk(s) && IsRecord(s.h, t) && o in s.h.types[t].methods && m < |s.h.procs| && s.h.procs[o].prototype
    requires !s.h.procs[m].prototype && NameOf(s.h, o) == NameOf(s.h, m) && StateOk(Implement(s, t, o, m)) &&
             IsRecord(s.h, u)
    ensures var h, h1 := s.h, Implement(s, t, o, m).h;
            && OwnImpl(h1, u, name) == Swap(OwnImpl(h, u, name), o, m)
            && MostDerived(h1, u, name) == Swap(MostDerived(h, u, name), o, m)
    decreases u
  {
    var h, h1 := s.h, Implement(s, t, o, m).h;
    var ms, ms1 := h.types[u].methods, h1.types[u].methods;
    assert TableOk(s, u) && TableOk(s, t);
    assert Names(h1, ms1) == Names(h, ms);
    if name in Names(h, ms) {
      var i := IndexIn(Names(h, ms), name);
      assert EntryOk(s, u, h.types[u].tag, ms[i]);
    }
    if Base(h.types, u).Some? { Swapped(s, t, o, m, Base(h.types, u).value, name); }
  }

  /** Replacing a prototype by an implementation of its signature keeps it. */
  lemma ImplementAgrees(s: State, t: TypeId, o: ProcId, m: ProcId)
    requires StateOk(s) && Agreed(s) && IsRecord(s.h, t) && o in s.h.types[t].methods && m < |s.h.procs| &&
             s.h.procs[o].prototype
    requires !s.h.procs[m].prototype && NameOf(s.h, o) == NameOf(s.h, m) && StateOk(Implement(s, t, o, m))
    requires SameSig(s.h.types, s.h.procs[o], s.h.procs[m])
    ensures Agreed(Implement(s, t, o, m))
  {
    forall u: TypeId, name: Name | IsRecord(Implement(s, t, o, m).h, u)
      ensures AgreesAt(Implement(s, t, o, m), u, name) {
      assert AgreesAt(s, u, name);
      SwappedAgrees(s, t, o, m, u, name);
    }
  }

  lemma SwappedAgrees(s: State, t: TypeId, o: ProcId, m: ProcId, u: TypeId, name: Name)
    requires StateOk(s) && IsRecord(s.h, t) && o in s.h.types[t].methods && m < |s.h.procs| && s.h.procs[o].prototype
    requires !s.h.procs[m].prototype && NameOf(s.h, o) == NameOf(s.h, m) && StateOk(Implement(s, t, o, m)) &&
             IsRecord(s.h, u)
    requires SameSig(s.h.types, s.h.procs[o], s.h.procs[m]) && AgreesAt(s, u, name)
    ensures AgreesAt(Implement(s, t, o, m), u, name)
  {
    var (ts, ps, base) := (s.h.types, s.h.procs, Base(s.h.types, u));
    SameSigSym(ts, ps[o], ps[m]);
    Swapped(s, t, o, m, u, name);
    if base.Some? {
      Swapped(s, t, o, m, base.value, name);
      var p, q := OwnImpl(s.h, u, name), MostDerived(s.h, base.value, name);
      if p.Some? && q.Some? {
        SwappedSig(ts, ps, o, m, q.value, p.value);
        SameSigGrows(ts, Implement(s, t, o, m).h.types, ps[Swap(q, o, m).value], ps[Swap(p, o, m).value]);
      }
    }
  }

  lemma SwappedSig(ts: seq<TypeDecl>, ps: seq<ProcDecl>, o: ProcId, m: ProcId, q: ProcId, p: ProcId)
    requires TypesOk(ts) && (forall i {:trigger ps[i]} :: 0 <= i < |ps| ==> SigIn(ts, ps[i]))
    requires o < |ps| && m < |ps| && q < |ps| && p < |ps|
    requires SameSig(ts, ps[o], ps[m]) && SameSig(ts, ps[m], ps[o]) && SameSig(ts, ps[q], ps[p])
    ensures SameSig(ts, ps[Swap(Some(q), o, m).value], ps[Swap(Some(p), o, m).value])
  {
    var q1, p1 := Swap(Some(q), o, m).value, Swap(Some(p), o, m).value;
    if q1 != q { SameSigTrans(ts, ps[m], ps[o], ps[p]); }
    if p1 != p { SameSigTrans(ts, ps[q1], ps[p], ps[m]); }
  }

  lemma {:induction false} SameMostDerived(h: Decls, h1: Decls, t: TypeId, name: Name)
    requires DeclsOk(h) && DeclsOk(h1) && SameTables(h, h1) && IsRecord(h, t)
    ensures IsRecord(h1, t) && MostDerived(h1, t, name) == MostDerived(h, t, name)
    decreases t
  {
    assert Bare(h1.types[t]) == Bare(h.types[t]);
    assert OwnImpl(h1, t, name) == OwnImpl(h, t, name);
    if Base(h.types, t).Some? { SameMostDerived(h, h1, Base(h.types, t).value, name); }
  }

  lemma AgreedFrame(s: State, s1: State)
    requires StateOk(s) && StateOk(s1) && SameTables(s.h, s1.h) && Agreed(s)
    ensures Agreed(s1)
  {
    forall t: TypeId, name: Name | IsRecord(s1.h, t) ensures AgreesAt(s1, t, name) {
      if t < |s.h.types| {
        assert Bare(s1.h.types[t]) == Bare(s.h.types[t]);
        assert AgreesAt(s, t, name);
        assert OwnImpl(s1.h, t, name) == OwnImpl(s.h, t, name);
        var base := Base(s.h.types, t);
        if base.Some? {
          SameMostDerived(s.h, s1.h, base.value, name);
          var p, q := OwnImpl(s.h, t, name), MostDerived(s.h, base.value, name);
          if p.Some? && q.Some? { SameSigGrows(s.h.types, s1.h.types, s.h.procs[q.value], s.h.procs[p.value]); }
        }
      } else {
        assert OwnImpl(s1.h, t, name).None?;
      }
    }
  }

  /** A method that binds without an error. */
  lemma BindAgrees(s: State, t: TypeId, m: ProcId)
    requires StateOk(s) && Agreed(s) && IsRecord(s.h, t) && m < |s.h.procs| && EntryOk(s, t, s.h.types[t].tag, m) &&
             s.h.types[t].tag
    requires !s.h.procs[m].prototype && Bind(s, t, m).errors == s.errors
    ensures StateOk(Bind(s, t, m)) && (Agreed(Bind(s, t, m)) <==>
              NameOf(s.h, m) in Names(s.h, s.h.types[t].methods) || NoConflictBelow(s, t, s.h.procs[m]))
  {
    BindOk(s, t, m);
    var (p, ms) := (s.h.procs[m], s.h.types[t].methods);
    if p.name in Names(s.h, ms) {
      var i := IndexIn(Names(s.h, ms), p.name);
      ImplementAgrees(s, t, ms[i], m);
    } else {
      AddMethodAgrees(s, t, m);
    }
  }

  lemma {:induction false} ExtendsGrows(ts: seq<TypeDecl>, ts1: seq<TypeDecl>, t: TypeId, b: TypeId)
    requires TypesOk(ts) && TypesOk(ts1) && Grows(ts, ts1) && t < |ts|
    ensures Extends(ts1, t, b) == Extends(ts, t, b)
    decreases t
  {
    assert Bare(ts1[t]) == Bare(ts[t]);
    if ts[t].RecordOf? && Base(ts, t).Some? { ExtendsGrows(ts, ts1, Base(ts, t).value, b); }
  }

  lemma FrameAt(s: State, s1: State, t: TypeId, p: ProcDecl, u: TypeId)
    requires StateOk(s) && StateOk(s1) && SameTables(s.h, s1.h) && |s1.h.types| == |s.h.types|
    requires IsRecord(s.h, t) && IsRecord(s1.h, t) && SigIn(s.h.types, p) && SigIn(s1.h.types, p)
    requires u != t && IsRecord(s.h, u) && Extends(s.h.types, u, t)
    ensures IsRecord(s1.h, u) && Extends(s1.h.types, u, t) && Base(s1.h.types, u) == Base(s.h.types, u)
    ensures OwnImpl(s1.h, u, p.name) == OwnImpl(s.h, u, p.name)
    ensures MostDerived(s1.h, Base(s1.h.types, u).value, p.name) == MostDerived(s.h, Base(s.h.types, u).value, p.name)
    ensures OwnImpl(s.h, u, p.name).Some? ==>
              var q := s.h.procs[OwnImpl(s.h, u, p.name).value];
              q == s1.h.procs[OwnImpl(s.h, u, p.name).value] && SameSig(s1.h.types, p, q) == SameSig(s.h.types, p, q)
  {
    ExtendsGrows(s.h.types, s1.h.types, u, t);
    assert Bare(s1.h.types[u]) == Bare(s.h.types[u]);
    SameMostDerived(s.h, s1.h, Base(s.h.types, u).value, p.name);
    if OwnImpl(s.h, u, p.name).Some? {
      SameSigGrows(s.h.types, s1.h.types, p, s.h.procs[OwnImpl(s.h, u, p.name).value]);
    }
  }

  lemma NoConflictFrame(s: State, s1: State, t: TypeId, p: ProcDecl)
    requires StateOk(s) && StateOk(s1) && SameTables(s.h, s1.h) && |s1.h.types| == |s.h.types|
    requires IsRecord(s.h, t) && IsRecord(s1.h, t) && SigIn(s.h.types, p) && SigIn(s1.h.types, p)
    ensures NoConflictBelow(s1, t, p) <==> NoConflictBelow(s, t, p)
  {
    SameMostDerived(s.h, s1.h, t, p.name);
    forall u: TypeId | u != t && IsRecord(s.h, u) && Extends(s.h.types, u, t)
      ensures IsRecord(s1.h, u) && Extends(s1.h.types, u, t) && Base(s1.h.types, u) == Base(s.h.types, u)
      ensures OwnImpl(s1.h, u, p.name) == OwnImpl(s.h, u, p.name)
      ensures MostDerived(s1.h, Base(s1.h.types, u).value, p.name) == MostDerived(s.h, Base(s.h.types, u).value, p.name)
      ensures OwnImpl(s.h, u, p.name).Some? ==>
                var q := s.h.procs[OwnImpl(s.h, u, p.name).value];
                q == s1.h.procs[OwnImpl(s.h, u, p.name).value] && SameSig(s1.h.types, p, q) == SameSig(s.h.types, p, q)
    {
      FrameAt(s, s1, t, p, u);
    }
    forall u: TypeId | u != t && IsRecord(s1.h, u) && Extends(s1.h.types, u, t)
      ensures IsRecord(s.h, u) && Extends(s.h.types, u, t)
    {
      ExtendsGrows(s.h.types, s1.h.types, u, t);
      assert Bare(s1.h.types[u]) == Bare(s.h.types[u]);
    }
  }

  /** The state in which a heading is bound. */
  lemma Prepared(s: State, t: TypeId, p: ProcDecl)
    requires StateOk(s) && IsRecord(s.h, t) && SigIn(s.h.types, p) && p.definition.None? && p.receiver == Some(t)
    ensures var s1 := SetTag(AddProc(s, p), t);
            && StateOk(s1) && SameTables(s.h, s1.h) && |s1.h.types| == |s.h.types| && IsRecord(s1.h, t)
            && s1.h.procs == s.h.procs + [p] && s1.h.types[t].tag
            && Names(s1.h, s1.h.types[t].methods) == Names(s.h, s.h.types[t].methods)
  {
    AddProcOk(s, p);
    var s1 := AddProc(s, p);
    AddProcTables(s, p);
    SetTagOk(s1, t);
    SetTagTables(s1, t);
    SameTablesTrans(s.h, s1.h, SetTag(s1, t).h);
  }

  /** A procedure with a receiver that is accepted keeps the agreement exactly if
      it implements a prototype or conflicts with no method declared before it. */
  lemma HeadingAgrees(s: State, t: TypeId, p: ProcDecl)
    requires StateOk(s) && Agreed(s) && IsRecord(s.h, t) && SigIn(s.h.types, p) && p.definition.None? && !p.prototype
    requires p.receiver == Some(t) && Heading(s, t, p).errors == s.errors
    ensures StateOk(Heading(s, t, p))
    ensures Agreed(Heading(s, t, p)) <==> p.name in Names(s.h, s.h.types[t].methods) || NoConflictBelow(s, t, p)
  {
    Prepared(s, t, p);
    var s1 := SetTag(AddProc(s, p), t);
    AgreedFrame(s, s1);
    BindAgrees(s1, t, |s.h.procs|);
    NoConflictFrame(s, s1, t, p);
  }

  /** A prototype always does: it belongs to the newest type. */
  lemma PrototypeAgrees(s: State, t: TypeId, p: ProcDecl)
    requires StateOk(s) && Agreed(s) && IsRecord(s.h, t) && t == |s.h.types| - 1
    requires SigIn(s.h.types, p) && p.definition.None? && p.prototype && p.receiver == Some(t)
    ensures StateOk(Prototype(s, t, p)) && Agreed(Prototype(s, t, p))
  {
    PrototypeOk(s, t, p);
    AddProcOk(s, p);
    AddProcTables(s, p);
    var s1, m := AddProc(s, p), |s.h.procs|;
    AgreedFrame(s, s1);
    var s2 := Prototype(s, t, p);
    if s2.h == s1.h {
      SameTablesRefl(s1.h);
      AgreedFrame(s1, s2);
    } else {
      var sm := s1.(declared := s1.declared + [m]);
      DeclaredKeepsOk(s1, m);
      SameTablesRefl(s1.h);
      AgreedFrame(s1, sm);
      forall u: TypeId | u != t && IsRecord(sm.h, u) ensures !Extends(sm.h.types, u, t) {
        if Extends(sm.h.types, u, t) { ExtendsBelow(sm.h.types, u, t); }
      }
      AddMethodAgrees(sm, t, m);
    }
  }

  lemma {:induction false} PrototypesAgree(s: State, t: TypeId, gs: seq<Sig>)
    requires StateOk(s) && IsRecord(s.h, t) && forall i :: 0 <= i < |gs| ==> InScope(s.h.types, gs[i])
    requires Agreed(s) && t == |s.h.types| - 1
    ensures Agreed(Prototypes(s, t, gs))
    decreases |gs|
  {
    if gs != [] {
      var s1 := Prototypes(s, t, gs[..|gs| - 1]);
      PrototypesAgree(s, t, gs[..|gs| - 1]);
      PrototypeStep(s, s1, t, gs[|gs| - 1]);
      PrototypeAgrees(s1, t, Proto(t, gs[|gs| - 1]));
    }
  }
}
