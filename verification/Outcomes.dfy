/** What every declaration comes to: exactly when Sema accepts it, what it reports
    otherwise, and what names stand for afterwards. */
module Outcomes {
  import opened Source
  import opened Types
  import opened Methods
  import opened Registration
  import opened Agreement
  import opened Semantics

  /** The record's own entry under a name, prototype or not. */
  function Entry(h: Decls, t: TypeId, name: Name): (r: Option<ProcId>)
    requires DeclsOk(h) && IsRecord(h, t)
    ensures r.Some? ==> r.value in h.types[t].methods && r.value < |h.procs| && NameOf(h, r.value) == name
    ensures r.None? <==> forall o :: o in h.types[t].methods ==> o < |h.procs| && NameOf(h, o) != name
  {
    var ms := h.types[t].methods;
    var names := Names(h, ms);
    assert forall i :: 0 <= i < |ms| ==> ms[i] in ms && names[i] == NameOf(h, ms[i]);
    if name in names then Some(ms[IndexIn(names, name)]) else None
  }

  /** p has the signature of what t inherits under its name, if anything. */
  ghost predicate FitsInherited(s: State, t: TypeId, p: ProcDecl)
    requires StateOk(s) && IsRecord(s.h, t) && SigIn(s.h.types, p)
  {
    var q := MostDerived(s.h, t, p.name);
    q.Some? ==> Spelled(s.h.types, s.h.procs[q.value]) == Spelled(s.h.types, p)
  }

  // ----- a procedure with a receiver -----

  /** What a heading reports: its name is implemented, or its signature is not that
      of the prototype or, without one, of the inherited method. */
  ghost function HeadingReports(s: State, t: TypeId, p: ProcDecl): seq<Error>
    requires StateOk(s) && IsRecord(s.h, t) && SigIn(s.h.types, p)
  {
    var o := Entry(s.h, t, p.name);
    if o.Some? && !s.h.procs[o.value].prototype then [DuplicateMethod(p.name)]
    else if o.Some? && Spelled(s.h.types, s.h.procs[o.value]) != Spelled(s.h.types, p) then [SignatureMismatch(p.name)]
    else if o.None? && !FitsInherited(s, t, p) then [SignatureMismatch(p.name)]
    else []
  }

  /** A heading is bound to its name if that has a prototype, or no entry and
      nothing inherited that it does not fit. */
  ghost predicate Binds(s: State, t: TypeId, p: ProcDecl)
    requires StateOk(s) && IsRecord(s.h, t) && SigIn(s.h.types, p)
  {
    var o := Entry(s.h, t, p.name);
    if o.Some? then s.h.procs[o.value].prototype else FitsInherited(s, t, p)
  }

  /** Names stand for what they did, but name in t for m if it is bound. */
  ghost predicate Rebound(h: Decls, h1: Decls, t: TypeId, name: Name, m: ProcId, bound: bool)
    requires DeclsOk(h) && DeclsOk(h1)
  {
    && (forall u: TypeId :: IsRecord(h, u) <==> IsRecord(h1, u))
    && (forall u: TypeId, x: Name {:trigger OwnImpl(h1, u, x)} :: IsRecord(h1, u) ==>
          OwnImpl(h1, u, x) == if bound && u == t && x == name then Some(m) else OwnImpl(h, u, x))
  }

  /** Entries stand for themselves: none has a definition yet. */
  lemma EntryIsImpl(s: State, u: TypeId, x: Name)
    requires StateOk(s) && IsRecord(s.h, u)
    ensures OwnImpl(s.h, u, x) == Entry(s.h, u, x)
    ensures Entry(s.h, u, x).Some? ==> s.h.procs[Entry(s.h, u, x).value].receiver == Some(u)
  {
    assert TableOk(s, u);
    var ms := s.h.types[u].methods;
    if x in Names(s.h, ms) { assert EntryOk(s, u, s.h.types[u].tag, ms[IndexIn(Names(s.h, ms), x)]); }
  }

  lemma EntryOf(h: Decls, t: TypeId, o: ProcId)
    requires DeclsOk(h) && IsRecord(h, t) && o in h.types[t].methods
    ensures o < |h.procs| && Entry(h, t, NameOf(h, o)) == Some(o)
  {
    var ms := h.types[t].methods;
    var i :| 0 <= i < |ms| && ms[i] == o;
    assert Names(h, ms)[i] == NameOf(h, o);
    DistinctIndex(Names(h, ms), i);
  }

  lemma ImplementBinds(s: State, t: TypeId, o: ProcId, m: ProcId)
    requires StateOk(s) && IsRecord(s.h, t) && s.h.types[t].tag && o in s.h.types[t].methods && m < |s.h.procs|
    requires o < |s.h.procs| && s.h.procs[o].prototype && !s.h.procs[m].prototype && NameOf(s.h, o) == NameOf(s.h, m)
    requires s.h.procs[m].receiver == Some(t)
    ensures StateOk(Implement(s, t, o, m)) && Rebound(s.h, Implement(s, t, o, m).h, t, NameOf(s.h, m), m, true)
  {
    ImplementOk(s, t, o, m);
    var h1 := Implement(s, t, o, m).h;
    EntryOf(s.h, t, o);
    EntryIsImpl(s, t, NameOf(s.h, m));
    forall u: TypeId, x: Name | IsRecord(h1, u)
      ensures OwnImpl(h1, u, x) == if u == t && x == NameOf(s.h, m) then Some(m) else OwnImpl(s.h, u, x)
    {
      Swapped(s, t, o, m, u, x);
      EntryIsImpl(s, u, x);
    }
  }

  lemma AddBinds(s: State, t: TypeId, m: ProcId)
    requires StateOk(s) && IsRecord(s.h, t) && m < |s.h.procs| && EntryOk(s, t, s.h.types[t].tag, m)
    requires Entry(s.h, t, NameOf(s.h, m)).None? && !(s.h.procs[m].prototype && s.h.procs[m].definition.Some?)
    ensures StateOk(AddMethod(s, t, m)) && Rebound(s.h, AddMethod(s, t, m).h, t, NameOf(s.h, m), m, true)
  {
    AddMethodOk(s, t, m);
    var h1 := AddMethod(s, t, m).h;
    forall u: TypeId, x: Name | IsRecord(h1, u)
      ensures OwnImpl(h1, u, x) == if u == t && x == NameOf(s.h, m) then Some(m) else OwnImpl(s.h, u, x)
    {
      Through(s, t, m, u, x);
    }
  }

  lemma BindReports(s: State, t: TypeId, m: ProcId)
    requires StateOk(s) && IsRecord(s.h, t) && m < |s.h.procs|
    ensures Bind(s, t, m).errors == s.errors + HeadingReports(s, t, s.h.procs[m]) &&
            Bind(s, t, m).declared == s.declared
    ensures var (p, r, o) := (s.h.procs[m], Bind(s, t, m), Entry(s.h, t, s.h.procs[m].name));
            r.h == if !Binds(s, t, p) then s.h
                   else if o.Some? then Implement(s, t, o.value, m).h
                   else AddMethod(s, t, m).h
  {
    var p := s.h.procs[m];
    var o, q := Entry(s.h, t, p.name), MostDerived(s.h, t, p.name);
    if o.Some? { SameSigIff(s.h.types, s.h.procs[o.value], p); }
    if q.Some? { SameSigIff(s.h.types, s.h.procs[q.value], p); }
  }

  /** All of this is the same where tables mean the same. */
  lemma SameOutcome(s: State, s1: State, t: TypeId, p: ProcDecl)
    requires StateOk(s) && StateOk(s1) && SameTables(s.h, s1.h) && IsRecord(s.h, t) && IsRecord(s1.h, t)
    requires s1.h.types[t].methods == s.h.types[t].methods && SigIn(s.h.types, p) && SigIn(s1.h.types, p)
    ensures Entry(s1.h, t, p.name) == Entry(s.h, t, p.name) && (FitsInherited(s1, t, p) <==> FitsInherited(s, t, p))
    ensures HeadingReports(s1, t, p) == HeadingReports(s, t, p) && (Binds(s1, t, p) <==> Binds(s, t, p))
  {
    var o, q := Entry(s.h, t, p.name), MostDerived(s.h, t, p.name);
    assert Names(s1.h, s1.h.types[t].methods) == Names(s.h, s.h.types[t].methods);
    SameMostDerived(s.h, s1.h, t, p.name);
    SpelledGrows(s.h.types, s1.h.types, p);
    if o.Some? { SpelledGrows(s.h.types, s1.h.types, s.h.procs[o.value]); }
    if q.Some? { SpelledGrows(s.h.types, s1.h.types, s.h.procs[q.value]); }
  }

  /** The procedures after a heading: it is the last, and what its name's prototype
      is defined by. */
  function Defined(s: State, t: TypeId, p: ProcDecl): seq<ProcDecl>
    requires StateOk(s) && IsRecord(s.h, t)
  {
    var o := Entry(s.h, t, p.name);
    (if o.Some? && s.h.procs[o.value].prototype
     then s.h.procs[o.value := s.h.procs[o.value].(definition := Some(|s.h.procs|))] else s.h.procs) + [p]
  }

  lemma ReboundFrom(h: Decls, h1: Decls, h2: Decls, t: TypeId, name: Name, m: ProcId, bound: bool)
    requires DeclsOk(h) && DeclsOk(h1) && DeclsOk(h2) && SameTables(h, h1) && |h1.types| == |h.types|
    requires Rebound(h1, h2, t, name, m, bound)
    ensures Rebound(h, h2, t, name, m, bound)
  {
    forall u: TypeId | u < |h.types| ensures IsRecord(h1, u) <==> IsRecord(h, u) {
      assert Bare(h1.types[u]) == Bare(h.types[u]);
    }
    forall u: TypeId, x: Name | IsRecord(h2, u)
      ensures OwnImpl(h2, u, x) == if bound && u == t && x == name then Some(m) else OwnImpl(h, u, x)
    {
      assert OwnImpl(h1, u, x) == OwnImpl(h, u, x);
    }
  }

  lemma BindRebinds(s: State, t: TypeId, m: ProcId)
    requires StateOk(s) && IsRecord(s.h, t) && m < |s.h.procs| && EntryOk(s, t, s.h.types[t].tag, m) && s.h.types[t].tag
    requires !s.h.procs[m].prototype
    ensures StateOk(Bind(s, t, m)) && Rebound(s.h, Bind(s, t, m).h, t, NameOf(s.h, m), m, Binds(s, t, s.h.procs[m]))
  {
    BindOk(s, t, m);
    BindReports(s, t, m);
    var o := Entry(s.h, t, NameOf(s.h, m));
    if Binds(s, t, s.h.procs[m]) {
      if o.Some? { ImplementBinds(s, t, o.value, m); } else { AddBinds(s, t, m); }
    }
  }

  lemma BindProcs(s: State, ps: seq<ProcDecl>, t: TypeId, p: ProcDecl)
    requires StateOk(s) && IsRecord(s.h, t) && s.h.procs == ps + [p]
    requires Entry(s.h, t, p.name).Some? ==> Entry(s.h, t, p.name).value < |ps|
    ensures var (r, o) := (Bind(s, t, |ps|), Entry(s.h, t, p.name));
            r.h.procs == (if o.Some? && s.h.procs[o.value].prototype
                          then ps[o.value := ps[o.value].(definition := Some(|ps|))] else ps) + [p]
  {
  }

  /** A procedure with a receiver: what it reports, and what becomes of the list of
      procedures. */
  lemma HeadingReported(s: State, t: TypeId, p: ProcDecl)
    requires StateOk(s) && IsRecord(s.h, t) && SigIn(s.h.types, p) && p.definition.None? && p.receiver == Some(t)
    ensures var r := Heading(s, t, p);
            && r.errors == s.errors + HeadingReports(s, t, p) && r.declared == s.declared
            && r.h.procs == Defined(s, t, p)
  {
    Prepared(s, t, p);
    var s1 := SetTag(AddProc(s, p), t);
    SameOutcome(s, s1, t, p);
    BindReports(s1, t, |s.h.procs|);
    BindProcs(s1, s.h.procs, t, p);
  }

  /** And what its name stands for. */
  lemma HeadingRebinds(s: State, t: TypeId, p: ProcDecl)
    requires StateOk(s) && IsRecord(s.h, t) && SigIn(s.h.types, p) && p.definition.None? && !p.prototype &&
             p.receiver == Some(t)
    ensures var r := Heading(s, t, p); StateOk(r) && Rebound(s.h, r.h, t, p.name, |s.h.procs|, Binds(s, t, p))
  {
    Prepared(s, t, p);
    var s1, m := SetTag(AddProc(s, p), t), |s.h.procs|;
    SameOutcome(s, s1, t, p);
    BindRebinds(s1, t, m);
    ReboundFrom(s.h, s1.h, Bind(s1, t, m).h, t, p.name, m, Binds(s, t, p));
  }

  // ----- a prototype in a record body -----

  ghost function PrototypeReports(s: State, t: TypeId, p: ProcDecl): seq<Error>
    requires StateOk(s) && IsRecord(s.h, t) && SigIn(s.h.types, p)
  {
    if Entry(s.h, t, p.name).Some? then [DuplicateMethod(p.name)]
    else if !FitsInherited(s, t, p) then [SignatureMismatch(p.name)]
    else []
  }

  /** A prototype waits for its definition unless it is reported. */
  lemma PrototypeReported(s: State, t: TypeId, p: ProcDecl)
    requires StateOk(s) && IsRecord(s.h, t) && SigIn(s.h.types, p) && p.definition.None?
    ensures var r := Prototype(s, t, p);
            && r.errors == s.errors + PrototypeReports(s, t, p) && r.h.procs == s.h.procs + [p]
            && r.declared == s.declared + (if PrototypeReports(s, t, p) == [] then [|s.h.procs|] else [])
            && r.h == if PrototypeReports(s, t, p) == [] then AddMethod(AddProc(s, p), t, |s.h.procs|).h
                      else AddProc(s, p).h
  {
    AddProcOk(s, p);
    AddProcTables(s, p);
    var s1 := AddProc(s, p);
    SameOutcome(s, s1, t, p);
    var q := MostDerived(s1.h, t, p.name);
    if q.Some? { SameSigIff(s1.h.types, s1.h.procs[q.value], p); }
  }

  /** Then its name stands for it. */
  lemma PrototypeRebinds(s: State, t: TypeId, p: ProcDecl)
    requires StateOk(s) && IsRecord(s.h, t) && SigIn(s.h.types, p) && p.definition.None? && p.prototype &&
             p.receiver == Some(t)
    ensures var r := Prototype(s, t, p);
            StateOk(r) && Rebound(s.h, r.h, t, p.name, |s.h.procs|, PrototypeReports(s, t, p) == [])
  {
    AddProcOk(s, p);
    AddProcTables(s, p);
    PrototypeOk(s, t, p);
    PrototypeReported(s, t, p);
    var s1, m := AddProc(s, p), |s.h.procs|;
    if PrototypeReports(s, t, p) == [] {
      assert Names(s1.h, s1.h.types[t].methods) == Names(s.h, s.h.types[t].methods);
      DeclaredKeepsOk(s1, m);
      AddBinds(s1.(declared := s1.declared + [m]), t, m);
    }
    ReboundFrom(s.h, s1.h, Prototype(s, t, p).h, t, p.name, m, PrototypeReports(s, t, p) == []);
  }

  // ----- all prototypes of a record body -----

  /** All tables but that of t say what they said. */
  ghost predicate OthersSame(h: Decls, h1: Decls, t: TypeId)
    requires DeclsOk(h) && DeclsOk(h1)
  {
    && Grows(h.types, h1.types) && |h.types| == |h1.types|
    && |h.procs| <= |h1.procs| && h1.procs[..|h.procs|] == h.procs
    && (forall u: TypeId, x: Name {:trigger OwnImpl(h1, u, x)} :: u != t && IsRecord(h, u) && IsRecord(h1, u) ==>
          OwnImpl(h1, u, x) == OwnImpl(h, u, x))
  }

  lemma {:induction false} InheritedSame(h: Decls, h1: Decls, t: TypeId, u: TypeId, x: Name)
    requires DeclsOk(h) && DeclsOk(h1) && OthersSame(h, h1, t) && u < t && IsRecord(h, u)
    ensures IsRecord(h1, u) && MostDerived(h1, u, x) == MostDerived(h, u, x)
    decreases u
  {
    assert Bare(h1.types[u]) == Bare(h.types[u]);
    assert OwnImpl(h1, u, x) == OwnImpl(h, u, x);
    if Base(h.types, u).Some? { InheritedSame(h, h1, t, Base(h.types, u).value, x); }
  }

  /** Where t itself has no entry, what a prototype must fit is as it was. */
  lemma FitsSame(s: State, s1: State, t: TypeId, p: ProcDecl)
    requires StateOk(s) && StateOk(s1) && OthersSame(s.h, s1.h, t) && IsRecord(s.h, t) && SigIn(s.h.types, p)
    requires IsRecord(s1.h, t) && OwnImpl(s.h, t, p.name).None? && OwnImpl(s1.h, t, p.name).None?
    ensures SigIn(s1.h.types, p) && (FitsInherited(s1, t, p) <==> FitsInherited(s, t, p))
  {
    assert Bare(s1.h.types[t]) == Bare(s.h.types[t]);
    SpelledGrows(s.h.types, s1.h.types, p);
    if Base(s.h.types, t).Some? { InheritedSame(s.h, s1.h, t, Base(s.h.types, t).value, p.name); }
    var q := MostDerived(s.h, t, p.name);
    if q.Some? { SpelledGrows(s.h.types, s1.h.types, s.h.procs[q.value]); }
  }

  /** Different names, each fitting what is inherited. */
  ghost predicate ProtosOk(s: State, t: TypeId, gs: seq<Sig>)
    requires StateOk(s) && IsRecord(s.h, t) && forall i :: 0 <= i < |gs| ==> InScope(s.h.types, gs[i])
  {
    && (forall i, j :: 0 <= i < j < |gs| ==> gs[i].name != gs[j].name)
    && (forall i :: 0 <= i < |gs| ==> InScope(s.h.types, gs[i]) && FitsInherited(s, t, Proto(t, gs[i])))
  }

  function SigNames(gs: seq<Sig>): (r: seq<Name>)
    ensures |r| == |gs| && forall i :: 0 <= i < |r| ==> r[i] == gs[i].name
  {
    seq(|gs|, i requires 0 <= i < |gs| => gs[i].name)
  }

  /** They stand for their names, in order, behind the procedures there were. */
  ghost predicate ProtosBound(h: Decls, h1: Decls, t: TypeId, gs: seq<Sig>)
    requires DeclsOk(h) && DeclsOk(h1) && IsRecord(h1, t)
  {
    && OthersSame(h, h1, t) && |h1.procs| == |h.procs| + |gs|
    && (forall i {:trigger gs[i]} :: 0 <= i < |gs| ==> h1.procs[|h.procs| + i] == Proto(t, gs[i]))
    && (forall i {:trigger gs[i]} :: 0 <= i < |gs| ==> OwnImpl(h1, t, gs[i].name) == Some(|h.procs| + i))
    && (forall x: Name {:trigger OwnImpl(h1, t, x)} :: x !in SigNames(gs) ==> OwnImpl(h1, t, x).None?)
  }

  lemma {:induction false} PrototypesOutcome(s: State, t: TypeId, gs: seq<Sig>)
    requires StateOk(s) && IsRecord(s.h, t) && s.h.types[t].methods == []
    requires forall i :: 0 <= i < |gs| ==> InScope(s.h.types, gs[i])
    ensures var r := Prototypes(s, t, gs);
            && s.errors <= r.errors && IsRecord(r.h, t) && (r.errors == s.errors <==> ProtosOk(s, t, gs))
            && (r.errors == s.errors ==> ProtosBound(s.h, r.h, t, gs))
    decreases |gs|
  {
    if gs != [] {
      var n := |gs| - 1;
      var s1 := Prototypes(s, t, gs[..n]);
      PrototypesOutcome(s, t, gs[..n]);
      PrototypeStep(s, s1, t, gs[n]);
      PrototypeReported(s1, t, Proto(t, gs[n]));
      if s1.errors == s.errors {
        NextPrototype(s, s1, t, gs);
      } else {
        assert !ProtosOk(s, t, gs[..n]);
        assert !ProtosOk(s, t, gs) by {
          assert forall i :: 0 <= i < n ==> gs[..n][i] == gs[i];
        }
      }
    }
  }

  /** One more behind accepted ones. */
  lemma NextPrototype(s: State, s1: State, t: TypeId, gs: seq<Sig>)
    requires StateOk(s) && StateOk(s1) && IsRecord(s.h, t) && IsRecord(s1.h, t) && s.h.types[t].methods == [] &&
             gs != []
    requires forall i :: 0 <= i < |gs| ==> InScope(s.h.types, gs[i])
    requires ProtosBound(s.h, s1.h, t, gs[..|gs| - 1]) && ProtosOk(s, t, gs[..|gs| - 1])
    ensures var p := Proto(t, gs[|gs| - 1]);
            && SigIn(s1.h.types, p) && (PrototypeReports(s1, t, p) == [] <==> ProtosOk(s, t, gs))
            && (PrototypeReports(s1, t, p) == [] ==>
                  var h2 := Prototype(s1, t, p).h;
                  DeclsOk(h2) && IsRecord(h2, t) && ProtosBound(s.h, h2, t, gs))
  {
    var n := |gs| - 1;
    var p := Proto(t, gs[n]);
    SpelledGrows(s.h.types, s1.h.types, p);
    NameIsNew(s, s1, t, gs);
    NextOk(s, t, gs);
    if OwnImpl(s1.h, t, p.name).None? { FitsSame(s, s1, t, p); }
    if PrototypeReports(s1, t, p) == [] {
      PrototypeRebinds(s1, t, p);
      PrototypeReported(s1, t, p);
      MoreBound(s.h, s1.h, Prototype(s1, t, p).h, t, gs);
    }
  }

  lemma NextOk(s: State, t: TypeId, gs: seq<Sig>)
    requires StateOk(s) && IsRecord(s.h, t) && gs != [] && forall i :: 0 <= i < |gs| ==> InScope(s.h.types, gs[i])
    requires ProtosOk(s, t, gs[..|gs| - 1])
    ensures var n := |gs| - 1;
            ProtosOk(s, t, gs) <==>
            (forall i :: 0 <= i < n ==> gs[i].name != gs[n].name) && FitsInherited(s, t, Proto(t, gs[n]))
  {
    var n := |gs| - 1;
    assert forall i :: 0 <= i < n ==> gs[..n][i] == gs[i];
  }

  lemma NameIsNew(s: State, s1: State, t: TypeId, gs: seq<Sig>)
    requires StateOk(s) && StateOk(s1) && IsRecord(s.h, t) && IsRecord(s1.h, t) && s.h.types[t].methods == [] &&
             gs != []
    requires ProtosBound(s.h, s1.h, t, gs[..|gs| - 1])
    ensures var x := gs[|gs| - 1].name;
            && OwnImpl(s.h, t, x).None? && Entry(s1.h, t, x) == OwnImpl(s1.h, t, x)
            && (Entry(s1.h, t, x).None? <==> forall i :: 0 <= i < |gs| - 1 ==> gs[i].name != x)
  {
    var n, x := |gs| - 1, gs[|gs| - 1].name;
    EntryIsImpl(s1, t, x);
    assert forall i :: 0 <= i < n ==> gs[..n][i] == gs[i];
    if x in SigNames(gs[..n]) {
      var i :| 0 <= i < n && SigNames(gs[..n])[i] == x;
      assert OwnImpl(s1.h, t, gs[..n][i].name).Some?;
    }
  }

  lemma OthersMore(h: Decls, h1: Decls, h2: Decls, t: TypeId, name: Name, m: ProcId)
    requires DeclsOk(h) && DeclsOk(h1) && DeclsOk(h2) && OthersSame(h, h1, t) && h1.procs <= h2.procs
    requires Grows(h1.types, h2.types) && |h2.types| == |h1.types| && Rebound(h1, h2, t, name, m, true)
    ensures OthersSame(h, h2, t)
  {
    forall u | 0 <= u < |h.types| ensures Bare(h2.types[u]) == Bare(h.types[u]) {
      assert Bare(h2.types[u]) == Bare(h1.types[u]) && Bare(h1.types[u]) == Bare(h.types[u]);
    }
    assert h2.procs[..|h.procs|] == h1.procs[..|h.procs|];
    forall u: TypeId, x: Name | u != t && IsRecord(h, u) && IsRecord(h2, u)
      ensures OwnImpl(h2, u, x) == OwnImpl(h, u, x)
    {
      assert OwnImpl(h1, u, x) == OwnImpl(h, u, x);
    }
  }

  lemma MoreBound(h: Decls, h1: Decls, h2: Decls, t: TypeId, gs: seq<Sig>)
    requires DeclsOk(h) && DeclsOk(h1) && DeclsOk(h2) && IsRecord(h1, t) && IsRecord(h2, t) && gs != []
    requires ProtosBound(h, h1, t, gs[..|gs| - 1]) && h2.procs == h1.procs + [Proto(t, gs[|gs| - 1])]
    requires Grows(h1.types, h2.types) && |h2.types| == |h1.types|
    requires Rebound(h1, h2, t, gs[|gs| - 1].name, |h1.procs|, true)
    requires forall i :: 0 <= i < |gs| - 1 ==> gs[i].name != gs[|gs| - 1].name
    ensures ProtosBound(h, h2, t, gs)
  {
    var n := |gs| - 1;
    assert forall i :: 0 <= i < n ==> gs[..n][i] == gs[i];
    OthersMore(h, h1, h2, t, gs[n].name, |h1.procs|);
    assert SigNames(gs) == SigNames(gs[..n]) + [gs[n].name];
    forall i | 0 <= i < |gs| ensures h2.procs[|h.procs| + i] == Proto(t, gs[i]) {
      if i < n { assert h1.procs[|h.procs| + i] == Proto(t, gs[..n][i]); }
    }
    forall i | 0 <= i < |gs| ensures OwnImpl(h2, t, gs[i].name) == Some(|h.procs| + i) {
      if i < n { assert OwnImpl(h1, t, gs[..n][i].name) == Some(|h.procs| + i); }
    }
    forall x: Name | x !in SigNames(gs) ensures OwnImpl(h2, t, x).None? {
      assert gs[n].name == SigNames(gs)[n] && OwnImpl(h1, t, x).None?;
    }
  }

  // ----- every declaration -----

  /** A field is in conflict exactly if a base has one of its name. */
  lemma {:induction false} ConflictsIff(ts: seq<TypeDecl>, base: Option<TypeId>, fields: seq<FieldDecl>)
    requires TypesOk(ts) && (base.Some? ==> base.value < |ts| && ts[base.value].RecordOf?)
    ensures Conflicts(ts, base, fields) == [] <==>
            base.None? || forall i :: 0 <= i < |fields| ==> fields[i].name !in FieldNames(ts, base.value)
    decreases |fields|
  {
    if fields != [] {
      var n := |fields| - 1;
      ConflictsIff(ts, base, fields[..n]);
      if base.Some? { FoundIff(ts, base.value, fields[n].name); }
      assert forall i :: 0 <= i < n ==> fields[..n][i] == fields[i];
    }
  }

  lemma FoundIff(ts: seq<TypeDecl>, t: TypeId, name: Name)
    requires TypesOk(ts) && t < |ts| && ts[t].RecordOf?
    ensures LookupField(ts, t, name).Some? <==> name in FieldNames(ts, t)
  {
    var r := LookupField(ts, t, name);
    if r.None? {
      NotFound(ts, t, name);
    } else {
      FieldNamesAre(ts, t);
      var i :| 0 <= i < |AllFields(ts, t)| && AllFields(ts, t)[i] == r.value;
      assert FieldNames(ts, t)[i] == name;
    }
  }

  /** The methods g of a new record on this base agree with what they override. */
  ghost predicate FitsBase(s: State, base: Option<TypeId>, g: Sig)
    requires StateOk(s) && (base.Some? ==> IsRecord(s.h, base.value)) && InScope(s.h.types, g)
  {
    base.Some? ==>
      var q := MostDerived(s.h, base.value, g.name);
      q.Some? ==> Spelled(s.h.types, s.h.procs[q.value]) == Spelled(s.h.types, Proto(0, g))
  }

  /** What Sema asks of a declaration. */
  ghost predicate WellFormed(s: State, a: Act)
    requires StateOk(s) && CanAct(s.h.types, a)
  {
    match a
    case TypeAlias(_, target, isNew) => target.Some? && isNew
    case ArrayType(low, high, _) => low.Some? && high.Some? && low.value <= high.value
    case RecordType(base, fields, methods) =>
      var rec := BaseRecord(s.h.types, base);
      && (base.Some? ==> rec.Some?)
      && (forall i :: rec.Some? && 0 <= i < |fields| ==> fields[i].name !in FieldNames(s.h.types, rec.value))
      && (forall i, j :: 0 <= i < j < |methods| ==> methods[i].name != methods[j].name)
      && (forall i :: 0 <= i < |methods| ==> FitsBase(s, rec, methods[i]))
    case Method(receiver, g) =>
      var rec := BaseRecord(s.h.types, receiver);
      rec.Some? && HeadingReports(s, rec.value, Procedure(rec.value, g)) == []
  }

  /** A declaration is accepted exactly if it is what Sema asks for. */
  lemma AcceptedIff(s: State, a: Act)
    requires StateOk(s) && CanAct(s.h.types, a)
    ensures Apply(s, a).errors == s.errors <==> WellFormed(s, a)
  {
    match a
    case TypeAlias(_, _, _) =>
    case ArrayType(_, _, _) =>
    case RecordType(base, fields, methods) => RecordAcceptedIff(s, base, fields, methods);
    case Method(receiver, g) =>
      var rec := BaseRecord(s.h.types, receiver);
      if rec.Some? { HeadingReported(s, rec.value, Procedure(rec.value, g)); }
  }

  lemma RecordAcceptedIff(s: State, base: Option<TypeId>, fields: seq<FieldDecl>, methods: seq<Sig>)
    requires StateOk(s) && CanAct(s.h.types, RecordType(base, fields, methods))
    ensures var (a, t, s1) := (RecordType(base, fields, methods), |s.h.types|, NewRecord(s, base, fields));
            && IsRecord(s1.h, t) && (forall i :: 0 <= i < |methods| ==> InScope(s1.h.types, methods[i]))
            && var r := Prototypes(s1, t, methods);
               && IsRecord(r.h, t) && (r.errors == s.errors <==> WellFormed(s, a))
               && (WellFormed(s, a) ==> ProtosBound(s1.h, r.h, t, methods))
  {
    var s1, t := NewRecord(s, base, fields), |s.h.types|;
    NewRecordAccepted(s, base, fields);
    ProtosOkIff(s, base, fields, methods);
    PrototypesOutcome(s1, t, methods);
    WellFormedRecord(s, base, fields, methods);
  }

  lemma WellFormedRecord(s: State, base: Option<TypeId>, fields: seq<FieldDecl>, methods: seq<Sig>)
    requires StateOk(s) && CanAct(s.h.types, RecordType(base, fields, methods))
    ensures WellFormed(s, RecordType(base, fields, methods)) <==>
            && WellFormed(s, RecordType(base, fields, []))
            && (forall i, j :: 0 <= i < j < |methods| ==> methods[i].name != methods[j].name)
            && (forall i :: 0 <= i < |methods| ==> FitsBase(s, BaseRecord(s.h.types, base), methods[i]))
  {
  }

  lemma NewRecordAccepted(s: State, base: Option<TypeId>, fields: seq<FieldDecl>)
    requires StateOk(s) && CanAct(s.h.types, RecordType(base, fields, []))
    ensures var (rec, s1) := (BaseRecord(s.h.types, base), NewRecord(s, base, fields));
            && s.errors <= s1.errors && s1.h.procs == s.h.procs && SameTables(s.h, s1.h)
            && s1.h.types[|s.h.types|] == RecordOf(rec, fields, [], rec.Some?)
            && (s1.errors == s.errors <==> WellFormed(s, RecordType(base, fields, [])))
  {
    NewRecordIs(s, base, fields);
    var rec, s1 := BaseRecord(s.h.types, base), NewRecord(s, base, fields);
    FieldsAccepted(s, base, fields, s1.h.types);
    NoMore(s.errors, if base.Some? && rec.None? then [BaseMustBeRecord] else [], Conflicts(s1.h.types, rec, fields));
  }

  lemma NoMore(a: seq<Error>, b: seq<Error>, c: seq<Error>)
    ensures a <= a + b + c && (a + b + c == a <==> b == [] && c == [])
  {
    assert |a + b + c| == |a| + |b| + |c|;
    assert a + [] + [] == a;
  }

  lemma FieldsAccepted(s: State, base: Option<TypeId>, fields: seq<FieldDecl>, ts1: seq<TypeDecl>)
    requires StateOk(s) && CanAct(s.h.types, RecordType(base, fields, []))
    requires TypesOk(ts1) && Grows(s.h.types, ts1)
    ensures var rec := BaseRecord(s.h.types, base);
            && (rec.Some? ==> ts1[rec.value].RecordOf?)
            && (WellFormed(s, RecordType(base, fields, [])) <==>
                (base.Some? ==> rec.Some?) && Conflicts(ts1, rec, fields) == [])
  {
    var rec := BaseRecord(s.h.types, base);
    if rec.Some? { FieldNamesGrow(s.h.types, ts1, rec.value); }
    ConflictsIff(ts1, rec, fields);
  }

  lemma NewRecordIs(s: State, base: Option<TypeId>, fields: seq<FieldDecl>)
    requires StateOk(s) && CanAct(s.h.types, RecordType(base, fields, []))
    ensures var (rec, s1) := (BaseRecord(s.h.types, base), NewRecord(s, base, fields));
            && s1.h.procs == s.h.procs && SameTables(s.h, s1.h)
            && s1.h.types[|s.h.types|] == RecordOf(rec, fields, [], rec.Some?)
            && (rec.Some? ==> s1.h.types[rec.value].RecordOf?)
            && s1.errors == s.errors + (if base.Some? && rec.None? then [BaseMustBeRecord] else []) +
                            Conflicts(s1.h.types, rec, fields)
  {
    NewRecordOk(s, base, fields);
  }

  lemma ProtosOkIff(s: State, base: Option<TypeId>, fields: seq<FieldDecl>, methods: seq<Sig>)
    requires StateOk(s) && CanAct(s.h.types, RecordType(base, fields, methods))
    ensures var (rec, s1, t) := (BaseRecord(s.h.types, base), NewRecord(s, base, fields), |s.h.types|);
            && (forall i :: 0 <= i < |methods| ==> InScope(s1.h.types, methods[i]))
            && (ProtosOk(s1, t, methods) <==>
                && (forall i, j :: 0 <= i < j < |methods| ==> methods[i].name != methods[j].name)
                && (forall i :: 0 <= i < |methods| ==> FitsBase(s, rec, methods[i])))
  {
    var rec, s1, t := BaseRecord(s.h.types, base), NewRecord(s, base, fields), |s.h.types|;
    NewRecordAccepted(s, base, fields);
    forall i | 0 <= i < |methods|
      ensures InScope(s1.h.types, methods[i]) &&
              (FitsInherited(s1, t, Proto(t, methods[i])) <==> FitsBase(s, rec, methods[i]))
    {
      FitsNew(s, s1, rec, t, methods[i]);
    }
  }

  lemma FitsNew(s: State, s1: State, rec: Option<TypeId>, t: TypeId, g: Sig)
    requires StateOk(s) && StateOk(s1) && SameTables(s.h, s1.h) && InScope(s.h.types, g)
    requires IsRecord(s1.h, t) && Base(s1.h.types, t) == rec && s1.h.types[t].methods == []
    requires rec.Some? ==> IsRecord(s.h, rec.value)
    ensures InScope(s1.h.types, g) && (FitsInherited(s1, t, Proto(t, g)) <==> FitsBase(s, rec, g))
  {
    SpelledGrows(s.h.types, s1.h.types, Proto(0, g));
    assert Spelled(s1.h.types, Proto(t, g)) == Spelled(s1.h.types, Proto(0, g));
    if rec.Some? {
      SameMostDerived(s.h, s1.h, rec.value, g.name);
      var q := MostDerived(s.h, rec.value, g.name);
      if q.Some? { SpelledGrows(s.h.types, s1.h.types, s.h.procs[q.value]); }
    }
  }

  /** A prototype and then its procedure, of the same signature, are accepted in any
      state, and the prototype has its definition. */
  lemma PrototypeThenProcedure(s: State, g: Sig, g1: Sig)
    requires StateOk(s) && InScope(s.h.types, g) && InScope(s.h.types, g1) && g1.name == g.name
    requires Spelled(s.h.types, Proto(0, g)) == Spelled(s.h.types, Proto(0, g1))
    ensures var (t, o) := (|s.h.types|, |s.h.procs|);
            var r := Runs(s, [RecordType(None, [], [g]), Method(Some(t), g1)]);
            && r.Some? && r.value.errors == s.errors && r.value.declared == s.declared + [o]
            && IsRecord(r.value.h, t) && OwnImpl(r.value.h, t, g.name) == Some(o + 1)
            && r.value.h.procs == s.h.procs + [Proto(t, g).(definition := Some(o + 1)), Procedure(t, g1)]
  {
    var (t, o) := (|s.h.types|, |s.h.procs|);
    var a, b := RecordType(None, [], [g]), Method(Some(t), g1);
    OnePrototype(s, g);
    var s1 := Apply(s, a);
    SpelledGrows(s.h.types, s1.h.types, Proto(0, g));
    SpelledGrows(s.h.types, s1.h.types, Proto(0, g1));
    ItsProcedure(s1, t, o, g, g1);
    TwoSteps(s, a, s1, b, Apply(s1, b));
  }

  lemma OnePrototype(s: State, g: Sig)
    requires StateOk(s) && InScope(s.h.types, g)
    ensures var (a, t, o) := (RecordType(None, [], [g]), |s.h.types|, |s.h.procs|);
            && CanAct(s.h.types, a) && var s1 := Apply(s, a);
               && s1.errors == s.errors && s1.declared == s.declared + [o] && s1.h.procs == s.h.procs + [Proto(t, g)]
               && IsRecord(s1.h, t) && !s1.h.types[t].Alias? && OwnImpl(s1.h, t, g.name) == Some(o)
  {
    var s0, t := NewRecord(s, None, []), |s.h.types|;
    NewRecordAccepted(s, None, []);
    ProtosOkIff(s, None, [], [g]);
    PrototypesOutcome(s0, t, [g]);
    assert [g][..0] == [] && [g][0] == g;
    PrototypeReported(s0, t, Proto(t, g));
  }

  lemma ItsProcedure(s: State, t: TypeId, o: ProcId, g: Sig, g1: Sig)
    requires StateOk(s) && IsRecord(s.h, t) && InScope(s.h.types, g) && InScope(s.h.types, g1) && g1.name == g.name
    requires OwnImpl(s.h, t, g.name) == Some(o) && s.h.procs[o] == Proto(t, g) && o == |s.h.procs| - 1
    requires Spelled(s.h.types, Proto(0, g)) == Spelled(s.h.types, Proto(0, g1))
    ensures CanAct(s.h.types, Method(Some(t), g1)) && BaseRecord(s.h.types, Some(t)) == Some(t)
    ensures var r := Apply(s, Method(Some(t), g1));
            && r.errors == s.errors && r.declared == s.declared && IsRecord(r.h, t)
            && OwnImpl(r.h, t, g.name) == Some(o + 1)
            && r.h.procs == s.h.procs[..o] + [Proto(t, g).(definition := Some(o + 1)), Procedure(t, g1)]
  {
    var p := Procedure(t, g1);
    ImplementsPrototype(s, t, o, g, g1);
    HeadingReported(s, t, p);
    HeadingRebinds(s, t, p);
    LastTwo(s.h.procs, o, Proto(t, g).(definition := Some(o + 1)), p);
  }

  lemma LastTwo<T>(s: seq<T>, o: nat, x: T, y: T)
    requires o + 1 == |s|
    ensures s[o := x] + [y] == s[..o] + [x, y]
  {
  }

  lemma ImplementsPrototype(s: State, t: TypeId, o: ProcId, g: Sig, g1: Sig)
    requires StateOk(s) && IsRecord(s.h, t) && InScope(s.h.types, g) && InScope(s.h.types, g1) && g1.name == g.name
    requires OwnImpl(s.h, t, g.name) == Some(o) && s.h.procs[o] == Proto(t, g)
    requires Spelled(s.h.types, Proto(0, g)) == Spelled(s.h.types, Proto(0, g1))
    ensures var p := Procedure(t, g1);
            && Entry(s.h, t, g.name) == Some(o) && HeadingReports(s, t, p) == [] && Binds(s, t, p)
  {
    EntryIsImpl(s, t, g.name);
    assert Spelled(s.h.types, Proto(t, g)) == Spelled(s.h.types, Proto(0, g));
    assert Spelled(s.h.types, Procedure(t, g1)) == Spelled(s.h.types, Proto(0, g1));
  }

  /** What the end of a module reports: the prototypes without a definition. */
  lemma {:induction false} MissingIff(ps: seq<ProcDecl>, ms: seq<ProcId>, name: Name)
    requires forall i :: 0 <= i < |ms| ==> ms[i] < |ps|
    ensures MethodNotImplemented(name) in Missing(ps, ms) <==>
            exists i :: 0 <= i < |ms| && ps[ms[i]].definition.None? && ps[ms[i]].name == name
    ensures forall e :: e in Missing(ps, ms) ==> e.MethodNotImplemented?
    decreases |ms|
  {
    if ms != [] {
      var n := |ms| - 1;
      MissingIff(ps, ms[..n], name);
      assert forall i :: 0 <= i < n ==> ms[..n][i] == ms[i];
    }
  }
}
