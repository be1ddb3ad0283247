/** Two methods on a chain of base types whose signatures differ: what agreement
    excludes, and what no accepted declaration removes. */
module Clashes {
  import opened Source
  import opened Types
  import opened Methods
  import opened Registration
  import opened Agreement

  /** Record u extends t, both have a method of that name, and they differ. */
  ghost predicate Clash(s: State, u: TypeId, t: TypeId, name: Name)
    requires StateOk(s)
  {
    && IsRecord(s.h, u) && IsRecord(s.h, t) && Extends(s.h.types, u, t)
    && OwnImpl(s.h, u, name).Some? && OwnImpl(s.h, t, name).Some?
    && !SameSig(s.h.types, s.h.procs[OwnImpl(s.h, t, name).value], s.h.procs[OwnImpl(s.h, u, name).value])
  }

  ghost predicate Clashing(s: State)
    requires StateOk(s)
  {
    exists u: TypeId, t: TypeId, name: Name :: Clash(s, u, t, name)
  }

  /** The record an inherited method is from. */
  lemma {:induction false} FoundAbove(s: State, t: TypeId, name: Name) returns (b: TypeId)
    requires StateOk(s) && IsRecord(s.h, t) && MostDerived(s.h, t, name).Some?
    ensures IsRecord(s.h, b) && Extends(s.h.types, t, b) && OwnImpl(s.h, b, name) == MostDerived(s.h, t, name)
    decreases t
  {
    b := t;
    if OwnImpl(s.h, t, name).None? { b := FoundAbove(s, Base(s.h.types, t).value, name); }
  }

  /** Agreement with the method overridden directly is agreement along the chain. */
  lemma AgreedIff(s: State)
    requires StateOk(s)
    ensures Agreed(s) <==> !Clashing(s)
  {
    if Agreed(s) {
      forall u: TypeId, t: TypeId, name: Name ensures !Clash(s, u, t, name) {
        if Clash(s, u, t, name) { OverridesSame(s, u, t, name); }
      }
    } else {
      var t: TypeId, name: Name :| IsRecord(s.h, t) && !AgreesAt(s, t, name);
      var b := FoundAbove(s, Base(s.h.types, t).value, name);
      assert Clash(s, t, b, name);
    }
  }

  /** Own methods that differ, in a state that has grown. */
  lemma StillClash(s: State, s1: State, u: TypeId, t: TypeId, name: Name, p: ProcId, q: ProcId)
    requires StateOk(s) && StateOk(s1) && Grows(s.h.types, s1.h.types) && Clash(s, u, t, name)
    requires IsRecord(s1.h, u) && IsRecord(s1.h, t) && OwnImpl(s1.h, t, name) == Some(p) &&
             OwnImpl(s1.h, u, name) == Some(q)
    requires p < |s.h.procs| && q < |s.h.procs| && s1.h.procs[p] == s.h.procs[p] && s1.h.procs[q] == s.h.procs[q]
    requires !SameSig(s.h.types, s.h.procs[p], s.h.procs[q])
    ensures Clash(s1, u, t, name)
  {
    ExtendsGrows(s.h.types, s1.h.types, u, t);
    SameSigGrows(s.h.types, s1.h.types, s.h.procs[p], s.h.procs[q]);
  }

  lemma RecordsStay(s: State, s1: State, u: TypeId)
    requires IsRecord(s.h, u) && Grows(s.h.types, s1.h.types)
    ensures IsRecord(s1.h, u)
  {
    assert Bare(s1.h.types[u]) == Bare(s.h.types[u]);
  }

  /** Where the tables mean the same. */
  lemma ClashFrame(s: State, s1: State, u: TypeId, t: TypeId, name: Name)
    requires StateOk(s) && StateOk(s1) && SameTables(s.h, s1.h) && Clash(s, u, t, name)
    ensures Clash(s1, u, t, name)
  {
    RecordsStay(s, s1, u);
    RecordsStay(s, s1, t);
    var p, q := OwnImpl(s.h, t, name).value, OwnImpl(s.h, u, name).value;
    assert s1.h.procs[p] == s1.h.procs[..|s.h.procs|][p] && s1.h.procs[q] == s1.h.procs[..|s.h.procs|][q];
    StillClash(s, s1, u, t, name, p, q);
  }

  /** A new method is in nobody's way. */
  lemma ClashAdd(s: State, r: TypeId, m: ProcId, u: TypeId, t: TypeId, name: Name)
    requires StateOk(s) && IsRecord(s.h, r) && m < |s.h.procs| && StateOk(AddMethod(s, r, m))
    requires NameOf(s.h, m) !in Names(s.h, s.h.types[r].methods) &&
             !(s.h.procs[m].prototype && s.h.procs[m].definition.Some?)
    requires Clash(s, u, t, name)
    ensures Clash(AddMethod(s, r, m), u, t, name)
  {
    Through(s, r, m, u, name);
    Through(s, r, m, t, name);
    StillClash(s, AddMethod(s, r, m), u, t, name, OwnImpl(s.h, t, name).value, OwnImpl(s.h, u, name).value);
  }

  /** An implementation clashes where its prototype did. */
  lemma ClashImplement(s: State, r: TypeId, o: ProcId, m: ProcId, u: TypeId, t: TypeId, name: Name)
    requires StateOk(s) && IsRecord(s.h, r) && o in s.h.types[r].methods && m < |s.h.procs| && s.h.procs[o].prototype
    requires !s.h.procs[m].prototype && NameOf(s.h, o) == NameOf(s.h, m) && StateOk(Implement(s, r, o, m))
    requires SameSig(s.h.types, s.h.procs[o], s.h.procs[m]) && Clash(s, u, t, name)
    ensures Clash(Implement(s, r, o, m), u, t, name)
  {
    var p, q := OwnImpl(s.h, t, name).value, OwnImpl(s.h, u, name).value;
    Swapped(s, r, o, m, u, name);
    Swapped(s, r, o, m, t, name);
    StillDiffer(s.h.types, s.h.procs, o, m, p, q);
    StillClash(s, Implement(s, r, o, m), u, t, name, Swap(Some(p), o, m).value, Swap(Some(q), o, m).value);
  }

  lemma StillDiffer(ts: seq<TypeDecl>, ps: seq<ProcDecl>, o: ProcId, m: ProcId, p: ProcId, q: ProcId)
    requires TypesOk(ts) && (forall i {:trigger ps[i]} :: 0 <= i < |ps| ==> SigIn(ts, ps[i]))
    requires o < |ps| && m < |ps| && p < |ps| && q < |ps| && SameSig(ts, ps[o], ps[m]) && !SameSig(ts, ps[p], ps[q])
    ensures !SameSig(ts, ps[Swap(Some(p), o, m).value], ps[Swap(Some(q), o, m).value])
  {
    var p1, q1 := Swap(Some(p), o, m).value, Swap(Some(q), o, m).value;
    if SameSig(ts, ps[p1], ps[q1]) {
      SameSigSym(ts, ps[o], ps[m]);
      SameSigRefl(ts, ps[p]);
      SameSigRefl(ts, ps[q]);
      assert SameSig(ts, ps[p], ps[p1]) && SameSig(ts, ps[q1], ps[q]);
      SameSigTrans(ts, ps[p], ps[p1], ps[q1]);
      SameSigTrans(ts, ps[p], ps[q1], ps[q]);
    }
  }

  // ----- what Sema accepts -----

  lemma BindKeepsClash(s: State, r: TypeId, m: ProcId, u: TypeId, t: TypeId, name: Name)
    requires StateOk(s) && IsRecord(s.h, r) && m < |s.h.procs| && EntryOk(s, r, s.h.types[r].tag, m) && s.h.types[r].tag
    requires !s.h.procs[m].prototype && Bind(s, r, m).errors == s.errors && Clash(s, u, t, name)
    ensures StateOk(Bind(s, r, m)) && Clash(Bind(s, r, m), u, t, name)
  {
    BindOk(s, r, m);
    var (p, ms) := (s.h.procs[m], s.h.types[r].methods);
    if p.name in Names(s.h, ms) {
      var i := IndexIn(Names(s.h, ms), p.name);
      ClashImplement(s, r, ms[i], m, u, t, name);
    } else {
      ClashAdd(s, r, m, u, t, name);
    }
  }

  lemma HeadingKeepsClash(s: State, r: TypeId, p: ProcDecl, u: TypeId, t: TypeId, name: Name)
    requires StateOk(s) && IsRecord(s.h, r) && SigIn(s.h.types, p) && p.definition.None? && !p.prototype
    requires p.receiver == Some(r) && Heading(s, r, p).errors == s.errors && Clash(s, u, t, name)
    ensures StateOk(Heading(s, r, p)) && Clash(Heading(s, r, p), u, t, name)
  {
    Prepared(s, r, p);
    var s1 := SetTag(AddProc(s, p), r);
    ClashFrame(s, s1, u, t, name);
    BindKeepsClash(s1, r, |s.h.procs|, u, t, name);
  }

  lemma TypeKeepsClash(s: State, d: TypeDecl, errors: seq<Error>, u: TypeId, t: TypeId, name: Name)
    requires StateOk(s) && StateOk(AddType(s, d)) && (d.RecordOf? ==> d.methods == []) && Clash(s, u, t, name)
    ensures StateOk(AddType(s, d).(errors := errors)) && Clash(AddType(s, d).(errors := errors), u, t, name)
  {
    ErrorsIrrelevant(AddType(s, d), errors);
    AddTypeTables(s, d);
    ClashFrame(s, AddType(s, d).(errors := errors), u, t, name);
  }

  lemma NewRecordKeepsClash(s: State, base: Option<TypeId>, fields: seq<FieldDecl>, u: TypeId, t: TypeId, name: Name)
    requires StateOk(s) && (base.Some? ==> base.value < |s.h.types|)
    requires (forall i :: 0 <= i < |fields| ==> fields[i].ty < |s.h.types|) && Clash(s, u, t, name)
    ensures Clash(NewRecord(s, base, fields), u, t, name)
  {
    NewRecordOk(s, base, fields);
    ClashFrame(s, NewRecord(s, base, fields), u, t, name);
  }

  lemma PrototypeKeepsClash(s: State, r: TypeId, p: ProcDecl, u: TypeId, t: TypeId, name: Name)
    requires StateOk(s) && IsRecord(s.h, r) && SigIn(s.h.types, p) && p.definition.None? && p.prototype
    requires p.receiver == Some(r) && Clash(s, u, t, name)
    ensures StateOk(Prototype(s, r, p)) && Clash(Prototype(s, r, p), u, t, name)
  {
    PrototypeOk(s, r, p);
    AddProcOk(s, p);
    AddProcTables(s, p);
    var s1, m := AddProc(s, p), |s.h.procs|;
    ClashFrame(s, s1, u, t, name);
    var s2 := Prototype(s, r, p);
    SameTablesRefl(s1.h);
    if s2.h == s1.h {
      ClashFrame(s1, s2, u, t, name);
    } else {
      var sm := s1.(declared := s1.declared + [m]);
      DeclaredKeepsOk(s1, m);
      ClashFrame(s1, sm, u, t, name);
      ClashAdd(sm, r, m, u, t, name);
    }
  }

  lemma {:induction false} PrototypesKeepClash(s: State, r: TypeId, gs: seq<Sig>, u: TypeId, t: TypeId, name: Name)
    requires StateOk(s) && IsRecord(s.h, r) && forall i :: 0 <= i < |gs| ==> InScope(s.h.types, gs[i])
    requires Clash(s, u, t, name)
    ensures Clash(Prototypes(s, r, gs), u, t, name)
    decreases |gs|
  {
    if gs != [] {
      var s1 := Prototypes(s, r, gs[..|gs| - 1]);
      PrototypesKeepClash(s, r, gs[..|gs| - 1], u, t, name);
      PrototypeStep(s, s1, r, gs[|gs| - 1]);
      PrototypeKeepsClash(s1, r, Proto(r, gs[|gs| - 1]), u, t, name);
    }
  }
}
