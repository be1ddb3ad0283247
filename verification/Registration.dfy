/** What Sema does to record types and their methods, declaration by declaration. */
module Registration {
  import opened Source
  import opened Types
  import opened Methods

  datatype Error =
    | TypeRequired | ArrayBoundNotConstant | ArrayBoundInvalid
    | BaseMustBeRecord | FieldConflictsWithBase(name: Name) | SymbolDeclared(name: Name)
    | DuplicateMethod(name: Name) | SignatureMismatch(name: Name)
    | ReceiverRequiresRecord | MethodNotImplemented(name: Name)

  /** The declarations so far, the prototypes awaiting implementation, and the
      errors reported. */
  datatype State = State(h: Decls, declared: seq<ProcId>, errors: seq<Error>)

  // ----- signatures -----

  predicate SigIn(ts: seq<TypeDecl>, p: ProcDecl) {
    && (forall i :: 0 <= i < |p.params| ==> p.params[i] < |ts|)
    && (p.ret.Some? ==> p.ret.value < |ts|)
  }

  /** Same result and parameter types, receivers aside. */
  predicate SameSig(ts: seq<TypeDecl>, p: ProcDecl, q: ProcDecl)
    requires TypesOk(ts) && SigIn(ts, p) && SigIn(ts, q)
  {
    && |p.params| == |q.params| && SameOptType(ts, p.ret, q.ret)
    && forall i :: 0 <= i < |p.params| ==> SameType(ts, p.params[i], q.params[i])
  }

  method HasSameSignature(ts: seq<TypeDecl>, p: ProcDecl, q: ProcDecl) returns (r: bool)
    requires TypesOk(ts) && SigIn(ts, p) && SigIn(ts, q)
    ensures r == SameSig(ts, p, q)
  {
    if |p.params| != |q.params| { return false; }
    if !SameOptType(ts, p.ret, q.ret) { return false; }
    for i := 0 to |p.params|
      invariant forall j :: 0 <= j < i ==> SameType(ts, p.params[j], q.params[j])
    {
      if !SameType(ts, p.params[i], q.params[i]) { return false; }
    }
    return true;
  }

  /** A signature spelled out: parameter types in order, and the result type if there
      is one. */
  function Spelled(ts: seq<TypeDecl>, p: ProcDecl): (seq<Shape>, Option<Shape>)
    requires TypesOk(ts) && SigIn(ts, p)
  {
    (seq(|p.params|, i requires 0 <= i < |p.params| => ShapeOf(ts, p.params[i])),
     if p.ret.Some? then Some(ShapeOf(ts, p.ret.value)) else None)
  }

  /** The types of the lowered function, its receiver aside. */
  function LoweredSig(ts: seq<TypeDecl>, p: ProcDecl): (seq<Lowered>, Option<Lowered>)
    requires TypesOk(ts) && SigIn(ts, p)
  {
    (seq(|p.params|, i requires 0 <= i < |p.params| => Convert(ts, p.params[i])),
     if p.ret.Some? then Some(Convert(ts, p.ret.value)) else None)
  }

  /** Signatures are the same exactly if they are spelled out alike. */
  lemma SameSigIff(ts: seq<TypeDecl>, p: ProcDecl, q: ProcDecl)
    requires TypesOk(ts) && SigIn(ts, p) && SigIn(ts, q)
    ensures SameSig(ts, p, q) <==> Spelled(ts, p) == Spelled(ts, q)
  {
    if p.ret.Some? && q.ret.Some? { SameTypeIff(ts, p.ret.value, q.ret.value); }
    var (a, b) := (Spelled(ts, p).0, Spelled(ts, q).0);
    if |p.params| == |q.params| {
      forall i | 0 <= i < |p.params| ensures SameType(ts, p.params[i], q.params[i]) <==> a[i] == b[i] {
        SameTypeIff(ts, p.params[i], q.params[i]);
      }
      assert SameSig(ts, p, q) ==> a == b;
    }
    assert |a| == |p.params| && |b| == |q.params|;
  }

  /** Then they are lowered alike. */
  lemma SameSigLowered(ts: seq<TypeDecl>, p: ProcDecl, q: ProcDecl)
    requires TypesOk(ts) && SigIn(ts, p) && SigIn(ts, q) && SameSig(ts, p, q)
    ensures Spelled(ts, p) == Spelled(ts, q) && LoweredSig(ts, p) == LoweredSig(ts, q)
  {
    SameSigIff(ts, p, q);
    if p.ret.Some? { SameTypeConverts(ts, p.ret.value, q.ret.value); }
    forall i | 0 <= i < |p.params| ensures Convert(ts, p.params[i]) == Convert(ts, q.params[i]) {
      SameTypeConverts(ts, p.params[i], q.params[i]);
    }
    assert LoweredSig(ts, p).0 == LoweredSig(ts, q).0;
  }

  lemma SameSigSym(ts: seq<TypeDecl>, p: ProcDecl, q: ProcDecl)
    requires TypesOk(ts) && SigIn(ts, p) && SigIn(ts, q) && SameSig(ts, p, q)
    ensures SameSig(ts, q, p)
  {
    if p.ret.Some? { SameTypeSym(ts, p.ret.value, q.ret.value); }
    forall i | 0 <= i < |q.params| ensures SameType(ts, q.params[i], p.params[i]) {
      SameTypeSym(ts, p.params[i], q.params[i]);
    }
  }

  lemma SameSigTrans(ts: seq<TypeDecl>, p: ProcDecl, q: ProcDecl, r: ProcDecl)
    requires TypesOk(ts) && SigIn(ts, p) && SigIn(ts, q) && SigIn(ts, r) && SameSig(ts, p, q) && SameSig(ts, q, r)
    ensures SameSig(ts, p, r)
  {
    if p.ret.Some? { SameTypeTrans(ts, p.ret.value, q.ret.value, r.ret.value); }
    forall i | 0 <= i < |p.params| ensures SameType(ts, p.params[i], r.params[i]) {
      SameTypeTrans(ts, p.params[i], q.params[i], r.params[i]);
    }
  }

  // ----- the invariant -----

  /** m may be in the method table of t: a prototype waits for its definition,
      an implementation needs the tag. */
  predicate EntryOk(s: State, t: TypeId, tag: bool, m: ProcId) {
    && m < |s.h.procs| && s.h.procs[m].receiver == Some(t)
    && if s.h.procs[m].prototype then m in s.declared && s.h.procs[m].definition.None? else tag
  }

  ghost predicate TableOk(s: State, t: TypeId)
    requires DeclsOk(s.h) && IsRecord(s.h, t)
  {
    forall i {:trigger s.h.types[t].methods[i]} :: 0 <= i < |s.h.types[t].methods| ==>
      EntryOk(s, t, s.h.types[t].tag, s.h.types[t].methods[i])
  }

  ghost predicate StateOk(s: State) {
    && DeclsOk(s.h) && TagsOk(s.h.types)
    && (forall m {:trigger s.h.procs[m]} :: 0 <= m < |s.h.procs| ==> SigIn(s.h.types, s.h.procs[m]))
    && (forall t {:trigger TableOk(s, t)} :: 0 <= t < |s.h.types| && s.h.types[t].RecordOf? ==> TableOk(s, t))
    && (forall i :: 0 <= i < |s.declared| ==> s.declared[i] < |s.h.procs|)
  }

  // ----- frames: tables and tags change, the types themselves do not -----

  function Bare(d: TypeDecl): TypeDecl {
    match d
    case RecordOf(base, fields, _, _) => RecordOf(base, fields, [], false)
    case _ => d
  }

  ghost predicate Grows(ts: seq<TypeDecl>, ts1: seq<TypeDecl>) {
    |ts| <= |ts1| && forall t {:trigger ts1[t]} :: 0 <= t < |ts| ==> Bare(ts1[t]) == Bare(ts[t])
  }

  lemma {:induction false} UnderlyingGrows(ts: seq<TypeDecl>, ts1: seq<TypeDecl>, t: TypeId)
    requires TypesOk(ts) && TypesOk(ts1) && Grows(ts, ts1) && t < |ts|
    ensures Underlying(ts1, t) == Underlying(ts, t)
    decreases t
  {
    assert Bare(ts1[t]) == Bare(ts[t]);
    if ts[t].Alias? { UnderlyingGrows(ts, ts1, ts[t].target); }
  }

  lemma {:induction false} SameTypeGrows(ts: seq<TypeDecl>, ts1: seq<TypeDecl>, l: TypeId, r: TypeId)
    requires TypesOk(ts) && TypesOk(ts1) && Grows(ts, ts1) && l < |ts| && r < |ts|
    ensures SameType(ts1, l, r) == SameType(ts, l, r)
    decreases l
  {
    UnderlyingGrows(ts, ts1, l);
    UnderlyingGrows(ts, ts1, r);
    var (x, y) := (Underlying(ts, l), Underlying(ts, r));
    assert Bare(ts1[x]) == Bare(ts[x]) && Bare(ts1[y]) == Bare(ts[y]);
    if ts[x].ArrayOf? && ts[y].ArrayOf? { SameTypeGrows(ts, ts1, ts[x].elem, ts[y].elem); }
  }

  lemma {:induction false} ShapeGrows(ts: seq<TypeDecl>, ts1: seq<TypeDecl>, t: TypeId)
    requires TypesOk(ts) && TypesOk(ts1) && Grows(ts, ts1) && t < |ts|
    ensures ShapeOf(ts1, t) == ShapeOf(ts, t)
    decreases t
  {
    assert Bare(ts1[t]) == Bare(ts[t]);
    match ts[t]
    case Alias(a) => ShapeGrows(ts, ts1, a);
    case ArrayOf(e, _, _) => ShapeGrows(ts, ts1, e);
    case _ =>
  }

  lemma SpelledGrows(ts: seq<TypeDecl>, ts1: seq<TypeDecl>, p: ProcDecl)
    requires TypesOk(ts) && TypesOk(ts1) && Grows(ts, ts1) && SigIn(ts, p)
    ensures SigIn(ts1, p) && Spelled(ts1, p) == Spelled(ts, p)
  {
    if p.ret.Some? { ShapeGrows(ts, ts1, p.ret.value); }
    forall i | 0 <= i < |p.params| ensures ShapeOf(ts1, p.params[i]) == ShapeOf(ts, p.params[i]) {
      ShapeGrows(ts, ts1, p.params[i]);
    }
    assert Spelled(ts1, p).0 == Spelled(ts, p).0;
  }

  lemma SameSigGrows(ts: seq<TypeDecl>, ts1: seq<TypeDecl>, p: ProcDecl, q: ProcDecl)
    requires TypesOk(ts) && TypesOk(ts1) && Grows(ts, ts1) && SigIn(ts, p) && SigIn(ts, q)
    ensures SigIn(ts1, p) && SigIn(ts1, q) && SameSig(ts1, p, q) == SameSig(ts, p, q)
  {
    if p.ret.Some? && q.ret.Some? { SameTypeGrows(ts, ts1, p.ret.value, q.ret.value); }
    if |p.params| == |q.params| {
      forall i | 0 <= i < |p.params|
        ensures SameType(ts1, p.params[i], q.params[i]) == SameType(ts, p.params[i], q.params[i]) {
        SameTypeGrows(ts, ts1, p.params[i], q.params[i]);
      }
    }
  }

  // ----- the elementary changes -----

  function Report(s: State, e: Error): State { s.(errors := s.errors + [e]) }

  function AddProc(s: State, p: ProcDecl): State { s.(h := s.h.(procs := s.h.procs + [p])) }

  function AddType(s: State, d: TypeDecl): State { s.(h := s.h.(types := s.h.types + [d])) }

  function SetRecord(h: Decls, t: TypeId, methods: seq<ProcId>, tag: bool): Decls
    requires IsRecord(h, t)
  {
    h.(types := h.types[t := h.types[t].(methods := methods, tag := tag)])
  }

  function SetTag(s: State, t: TypeId): State
    requires IsRecord(s.h, t)
  {
    s.(h := SetRecord(s.h, t, s.h.types[t].methods, true))
  }

  /** A new entry of the method table of t. */
  function AddMethod(s: State, t: TypeId, m: ProcId): State
    requires IsRecord(s.h, t)
  {
    s.(h := SetRecord(s.h, t, s.h.types[t].methods + [m], s.h.types[t].tag))
  }

  function Replaced(ms: seq<ProcId>, o: ProcId, m: ProcId): (r: seq<ProcId>)
    ensures |r| == |ms| && forall i :: 0 <= i < |r| ==> r[i] == if ms[i] == o then m else ms[i]
  {
    seq(|ms|, i requires 0 <= i < |ms| => if ms[i] == o then m else ms[i])
  }

  /** The prototype o gets its definition m, which takes its place in t. */
  function Implement(s: State, t: TypeId, o: ProcId, m: ProcId): State
    requires IsRecord(s.h, t) && o < |s.h.procs|
  {
    var h := s.h.(procs := s.h.procs[o := s.h.procs[o].(definition := Some(m))]);
    s.(h := SetRecord(h, t, Replaced(s.h.types[t].methods, o, m), s.h.types[t].tag))
  }

  lemma TypesGrowOk(ts: seq<TypeDecl>, ts1: seq<TypeDecl>)
    requires TypesOk(ts) && |ts1| == |ts| && Grows(ts, ts1)
    ensures TypesOk(ts1)
  {
    forall t | 0 <= t < |ts1| ensures DeclOk(ts1, t) && BaseOk(ts1, t) {
      assert DeclOk(ts, t) && BaseOk(ts, t) && Bare(ts1[t]) == Bare(ts[t]);
      if ts[t].RecordOf? && ts[t].base.Some? {
        var b := ts[t].base.value;
        assert Bare(ts1[b]) == Bare(ts[b]);
      }
    }
  }

  lemma ReportOk(s: State, e: Error)
    requires StateOk(s)
    ensures StateOk(Report(s, e))
  {
    var s1 := Report(s, e);
    forall t | 0 <= t < |s.h.types| && s.h.types[t].RecordOf? ensures TableOk(s1, t) {
      assert TableOk(s, t);
    }
  }

  lemma AddProcOk(s: State, p: ProcDecl)
    requires StateOk(s) && SigIn(s.h.types, p) && p.definition.None?
    ensures StateOk(AddProc(s, p))
  {
    var s1 := AddProc(s, p);
    forall t | 0 <= t < |s.h.types| && s.h.types[t].RecordOf?
      ensures MethodsOk(s1.h, s1.h.types[t].methods)
    {
      assert Names(s1.h, s1.h.types[t].methods) == Names(s.h, s.h.types[t].methods);
    }
    assert DeclsOk(s1.h);
    forall t | 0 <= t < |s.h.types| && s.h.types[t].RecordOf? ensures TableOk(s1, t) {
      assert TableOk(s, t);
    }
  }

  /** A type declared last. */
  lemma AddTypeOk(s: State, d: TypeDecl)
    requires StateOk(s)
    requires match d
             case Named(_) => true
             case Alias(a) => a < |s.h.types|
             case ArrayOf(e, low, high) => e < |s.h.types| && low <= high
             case RecordOf(base, fields, methods, tag) =>
               && methods == [] && (forall i :: 0 <= i < |fields| ==> fields[i].ty < |s.h.types|)
               && (base.Some? ==>
                     base.value < |s.h.types| && s.h.types[base.value].RecordOf? && s.h.types[base.value].tag && tag)
    ensures StateOk(AddType(s, d)) && Grows(s.h.types, AddType(s, d).h.types)
  {
    var s1 := AddType(s, d);
    var ts, ts1 := s.h.types, s1.h.types;
    forall t | 0 <= t < |ts1| ensures DeclOk(ts1, t) && BaseOk(ts1, t) {
      if t < |ts| { assert DeclOk(ts, t) && BaseOk(ts, t); }
    }
    assert TypesOk(ts1);
    forall t | 0 <= t < |ts1| && ts1[t].RecordOf?
      ensures MethodsOk(s1.h, ts1[t].methods)
    {
      if t < |ts| { assert Names(s1.h, ts1[t].methods) == Names(s.h, ts[t].methods); }
    }
    assert DeclsOk(s1.h);
    forall t | 0 <= t < |ts1| && ts1[t].RecordOf? ensures TableOk(s1, t) {
      if t < |ts| { assert TableOk(s, t); }
    }
    TagsStay(s, d);
  }

  lemma TagsStay(s: State, d: TypeDecl)
    requires TagsOk(s.h.types)
    requires d.RecordOf? && d.base.Some? ==>
               d.tag && d.base.value < |s.h.types| && s.h.types[d.base.value].RecordOf? && s.h.types[d.base.value].tag
    ensures TagsOk(AddType(s, d).h.types)
  {
    var ts, ts1 := s.h.types, AddType(s, d).h.types;
    forall t | 0 <= t < |ts1| ensures TagOk(ts1, t) {
      if t < |ts| { assert TagOk(ts, t); }
    }
  }

  /** New methods for a record that may also get the tag. */
  lemma SetRecordOk(s: State, s1: State, t: TypeId, methods: seq<ProcId>, tag: bool)
    requires StateOk(s) && IsRecord(s.h, t) && s1.h == SetRecord(s.h, t, methods, tag)
    requires s1.declared == s.declared && (s.h.types[t].tag ==> tag)
    requires ProcsIn(s.h, methods) && Distinct(Names(s.h, methods))
    requires forall i {:trigger methods[i]} :: 0 <= i < |methods| ==> EntryOk(s, t, tag, methods[i])
    ensures StateOk(s1) && Grows(s.h.types, s1.h.types)
  {
    var ts, ts1 := s.h.types, s1.h.types;
    TypesGrowOk(ts, ts1);
    forall u | 0 <= u < |ts1| && ts1[u].RecordOf?
      ensures MethodsOk(s1.h, ts1[u].methods)
    {
      assert Names(s1.h, ts1[u].methods) == Names(s.h, ts1[u].methods);
      if u != t { assert ts1[u] == ts[u]; }
    }
    assert DeclsOk(s1.h);
    forall u | 0 <= u < |ts1| && ts1[u].RecordOf? ensures TableOk(s1, u) {
      if u != t { assert ts1[u] == ts[u]; assert TableOk(s, u); }
    }
    TagsRise(ts, ts1, t, methods, tag);
  }

  lemma TagsRise(ts: seq<TypeDecl>, ts1: seq<TypeDecl>, t: TypeId, methods: seq<ProcId>, tag: bool)
    requires TagsOk(ts) && t < |ts| && ts[t].RecordOf? && (ts[t].tag ==> tag)
    requires ts1 == ts[t := ts[t].(methods := methods, tag := tag)]
    ensures TagsOk(ts1)
  {
    forall u | 0 <= u < |ts1| ensures TagOk(ts1, u) {
      assert TagOk(ts, u);
    }
  }

  lemma SetTagOk(s: State, t: TypeId)
    requires StateOk(s) && IsRecord(s.h, t)
    ensures StateOk(SetTag(s, t)) && Grows(s.h.types, SetTag(s, t).h.types)
  {
    var s1 := SetTag(s, t);
    assert TableOk(s, t);
    SetRecordOk(s, s1, t, s.h.types[t].methods, true);
  }

  lemma AddMethodOk(s: State, t: TypeId, m: ProcId)
    requires StateOk(s) && IsRecord(s.h, t) && EntryOk(s, t, s.h.types[t].tag, m)
    requires NameOf(s.h, m) !in Names(s.h, s.h.types[t].methods)
    ensures StateOk(AddMethod(s, t, m)) && Grows(s.h.types, AddMethod(s, t, m).h.types)
  {
    var old_, ms := s.h.types[t].methods, s.h.types[t].methods + [m];
    assert TableOk(s, t);
    assert Names(s.h, ms) == Names(s.h, old_) + [NameOf(s.h, m)];
    SetRecordOk(s, AddMethod(s, t, m), t, ms, s.h.types[t].tag);
  }

  /** Implementing a prototype: the entry for it, of which there is one. */
  lemma ImplementOk(s: State, t: TypeId, o: ProcId, m: ProcId)
    requires StateOk(s) && IsRecord(s.h, t) && s.h.types[t].tag && o in s.h.types[t].methods && m < |s.h.procs|
    requires s.h.procs[o].prototype && !s.h.procs[m].prototype && NameOf(s.h, o) == NameOf(s.h, m)
    requires s.h.procs[m].receiver == Some(t)
    ensures StateOk(Implement(s, t, o, m)) && Grows(s.h.types, Implement(s, t, o, m).h.types)
  {
    var s1 := Implement(s, t, o, m);
    var ts, ts1 := s.h.types, s1.h.types;
    TypesGrowOk(ts, ts1);
    forall u | 0 <= u < |ts1| && ts1[u].RecordOf?
      ensures MethodsOk(s1.h, ts1[u].methods)
    {
      if u != t { assert ts1[u] == ts[u]; }
      assert Names(s1.h, ts1[u].methods) == Names(s.h, ts[u].methods);
    }
    assert DeclsOk(s1.h);
    assert TableOk(s, t);
    forall u | 0 <= u < |ts1| && ts1[u].RecordOf? ensures TableOk(s1, u) {
      assert TableOk(s, u);
      forall i | 0 <= i < |ts1[u].methods| ensures EntryOk(s1, u, ts1[u].tag, ts1[u].methods[i]) {
        assert EntryOk(s, u, ts[u].tag, ts[u].methods[i]);
      }
    }
    TagsRise(ts, ts1, t, Replaced(ts[t].methods, o, m), ts[t].tag);
  }

  // ----- the actions of Sema -----

  /** The record behind a base type, if it is one. */
  function BaseRecord(ts: seq<TypeDecl>, base: Option<TypeId>): (r: Option<TypeId>)
    requires TypesOk(ts) && (base.Some? ==> base.value < |ts|)
    ensures r.Some? ==> r.value < |ts| && ts[r.value].RecordOf?
  {
    if base.Some? && ts[Underlying(ts, base.value)].RecordOf? then Some(Underlying(ts, base.value)) else None
  }

  /** The errors for fields that already exist in the base. */
  function Conflicts(ts: seq<TypeDecl>, base: Option<TypeId>, fields: seq<FieldDecl>): seq<Error>
    requires TypesOk(ts) && (base.Some? ==> base.value < |ts| && ts[base.value].RecordOf?)
    decreases |fields|
  {
    if fields == [] then []
    else
      var n := |fields| - 1;
      Conflicts(ts, base, fields[..n]) +
      if base.Some? && LookupField(ts, base.value, fields[n].name).Some?
      then [FieldConflictsWithBase(fields[n].name)] else []
  }

  /** A prototype in the body of record t, the newest type. */
  function Prototype(s: State, t: TypeId, p: ProcDecl): State
    requires StateOk(s) && IsRecord(s.h, t) && SigIn(s.h.types, p) && p.definition.None?
  {
    AddProcOk(s, p);
    var s1, m := AddProc(s, p), |s.h.procs|;
    if p.name in Names(s1.h, s1.h.types[t].methods) then Report(s1, DuplicateMethod(p.name))
    else
      match MostDerived(s1.h, t, p.name)
      case Some(q) =>
        if SameSig(s1.h.types, s1.h.procs[q], p) then Declared(s1, t, m)
        else Report(s1, SignatureMismatch(p.name))
      case None => Declared(s1, t, m)
  }

  function Declared(s: State, t: TypeId, m: ProcId): State
    requires IsRecord(s.h, t)
  {
    AddMethod(s, t, m).(declared := s.declared + [m])
  }

  /** A procedure with receiver type t, a record. */
  function Heading(s: State, t: TypeId, p: ProcDecl): State
    requires StateOk(s) && IsRecord(s.h, t) && SigIn(s.h.types, p) && p.definition.None?
  {
    AddProcOk(s, p);
    SetTagOk(AddProc(s, p), t);
    Bind(SetTag(AddProc(s, p), t), t, |s.h.procs|)
  }

  /** Its place in the method table: that of the prototype it implements, or a
      new one; it must agree with the prototype or the inherited method. */
  function Bind(s: State, t: TypeId, m: ProcId): State
    requires StateOk(s) && IsRecord(s.h, t) && m < |s.h.procs|
  {
    var (ts, p, ms) := (s.h.types, s.h.procs[m], s.h.types[t].methods);
    if p.name in Names(s.h, ms) then
      var o := ms[IndexIn(Names(s.h, ms), p.name)];
      if !s.h.procs[o].prototype then Report(s, DuplicateMethod(p.name))
      else Implement(if SameSig(ts, s.h.procs[o], p) then s else Report(s, SignatureMismatch(p.name)), t, o, m)
    else
      match MostDerived(s.h, t, p.name)
      case Some(q) => if SameSig(ts, s.h.procs[q], p) then AddMethod(s, t, m) else Report(s, SignatureMismatch(p.name))
      case None => AddMethod(s, t, m)
  }

  lemma DeclaredOk(s: State, t: TypeId, m: ProcId)
    requires StateOk(s) && IsRecord(s.h, t) && m < |s.h.procs| && s.h.procs[m].receiver == Some(t)
    requires s.h.procs[m].prototype && s.h.procs[m].definition.None? &&
             NameOf(s.h, m) !in Names(s.h, s.h.types[t].methods)
    ensures StateOk(Declared(s, t, m)) && Grows(s.h.types, Declared(s, t, m).h.types)
  {
    DeclaredKeepsOk(s, m);
    AddMethodOk(s.(declared := s.declared + [m]), t, m);
  }

  lemma DeclaredKeepsOk(s: State, m: ProcId)
    requires StateOk(s) && m < |s.h.procs|
    ensures StateOk(s.(declared := s.declared + [m]))
  {
    var s1 := s.(declared := s.declared + [m]);
    forall u | 0 <= u < |s.h.types| && s.h.types[u].RecordOf? ensures TableOk(s1, u) {
      assert TableOk(s, u);
      forall i | 0 <= i < |s.h.types[u].methods| ensures EntryOk(s1, u, s.h.types[u].tag, s.h.types[u].methods[i]) {
        assert EntryOk(s, u, s.h.types[u].tag, s.h.types[u].methods[i]);
      }
    }
  }

  lemma PrototypeOk(s: State, t: TypeId, p: ProcDecl)
    requires StateOk(s) && IsRecord(s.h, t) && SigIn(s.h.types, p) && p.definition.None? && p.prototype &&
             p.receiver == Some(t)
    ensures StateOk(Prototype(s, t, p)) && Grows(s.h.types, Prototype(s, t, p).h.types)
  {
    AddProcOk(s, p);
    var s1, m := AddProc(s, p), |s.h.procs|;
    if p.name in Names(s1.h, s1.h.types[t].methods) {
      ReportOk(s1, DuplicateMethod(p.name));
    } else {
      DeclaredOk(s1, t, m);
      ReportOk(s1, SignatureMismatch(p.name));
    }
  }

  lemma HeadingOk(s: State, t: TypeId, p: ProcDecl)
    requires StateOk(s) && IsRecord(s.h, t) && SigIn(s.h.types, p) && p.definition.None? && !p.prototype &&
             p.receiver == Some(t)
    ensures StateOk(Heading(s, t, p)) && Grows(s.h.types, Heading(s, t, p).h.types)
  {
    AddProcOk(s, p);
    SetTagOk(AddProc(s, p), t);
    BindOk(SetTag(AddProc(s, p), t), t, |s.h.procs|);
  }

  lemma BindOk(s: State, t: TypeId, m: ProcId)
    requires StateOk(s) && IsRecord(s.h, t) && m < |s.h.procs| && EntryOk(s, t, s.h.types[t].tag, m) && s.h.types[t].tag
    requires !s.h.procs[m].prototype
    ensures StateOk(Bind(s, t, m)) && Grows(s.h.types, Bind(s, t, m).h.types)
  {
    var (p, ms) := (s.h.procs[m], s.h.types[t].methods);
    ReportOk(s, DuplicateMethod(p.name));
    ReportOk(s, SignatureMismatch(p.name));
    if p.name in Names(s.h, ms) {
      var i := IndexIn(Names(s.h, ms), p.name);
      if s.h.procs[ms[i]].prototype {
        ImplementOk(s, t, ms[i], m);
        ImplementOk(Report(s, SignatureMismatch(p.name)), t, ms[i], m);
      }
    } else {
      AddMethodOk(s, t, m);
    }
  }

  // ----- method tables that mean the same -----

  /** Every name stands for what it did, and new records have no methods. */
  ghost predicate SameTables(h: Decls, h1: Decls)
    requires DeclsOk(h) && DeclsOk(h1)
  {
    && Grows(h.types, h1.types) && |h.procs| <= |h1.procs| && h1.procs[..|h.procs|] == h.procs
    && (forall t: TypeId, name: Name {:trigger OwnImpl(h1, t, name)} :: IsRecord(h1, t) ==>
          OwnImpl(h1, t, name) == if t < |h.types| then OwnImpl(h, t, name) else None)
  }

  lemma AddProcTables(s: State, p: ProcDecl)
    requires StateOk(s) && StateOk(AddProc(s, p))
    ensures SameTables(s.h, AddProc(s, p).h)
  {
    var h1 := AddProc(s, p).h;
    forall t: TypeId, name: Name | IsRecord(h1, t) ensures OwnImpl(h1, t, name) == OwnImpl(s.h, t, name) {
      assert Names(h1, h1.types[t].methods) == Names(s.h, s.h.types[t].methods);
    }
  }

  lemma SetTagTables(s: State, t: TypeId)
    requires StateOk(s) && IsRecord(s.h, t) && StateOk(SetTag(s, t))
    ensures SameTables(s.h, SetTag(s, t).h)
  {
    var h1 := SetTag(s, t).h;
    forall u: TypeId, name: Name | IsRecord(h1, u) ensures OwnImpl(h1, u, name) == OwnImpl(s.h, u, name) {
      assert Names(h1, h1.types[u].methods) == Names(s.h, s.h.types[u].methods);
    }
  }

  lemma AddTypeTables(s: State, d: TypeDecl)
    requires StateOk(s) && StateOk(AddType(s, d)) && (d.RecordOf? ==> d.methods == [])
    ensures SameTables(s.h, AddType(s, d).h)
  {
    var h1 := AddType(s, d).h;
    forall u: TypeId, name: Name | IsRecord(h1, u)
      ensures OwnImpl(h1, u, name) == if u < |s.h.types| then OwnImpl(s.h, u, name) else None
    {
      if u < |s.h.types| { assert Names(h1, h1.types[u].methods) == Names(s.h, s.h.types[u].methods); }
    }
  }

  lemma SameTablesTrans(h: Decls, h1: Decls, h2: Decls)
    requires DeclsOk(h) && DeclsOk(h1) && DeclsOk(h2) && SameTables(h, h1) && SameTables(h1, h2)
    ensures SameTables(h, h2)
  {
    assert h2.procs[..|h.procs|] == h1.procs[..|h.procs|];
    forall t | 0 <= t < |h.types| ensures Bare(h2.types[t]) == Bare(h.types[t]) {
      assert Bare(h1.types[t]) == Bare(h.types[t]);
    }
    forall t: TypeId, name: Name | IsRecord(h2, t)
      ensures OwnImpl(h2, t, name) == if t < |h.types| then OwnImpl(h, t, name) else None
    {
      if t < |h1.types| { assert Bare(h2.types[t]) == Bare(h1.types[t]); }
      assert OwnImpl(h2, t, name) == if t < |h1.types| then OwnImpl(h1, t, name) else None;
    }
  }

  lemma SameTablesRefl(h: Decls)
    requires DeclsOk(h)
    ensures SameTables(h, h)
  {
  }

  // ----- whole declarations -----

  datatype Sig = Sig(name: Name, params: seq<TypeId>, ret: Option<TypeId>)

  predicate InScope(ts: seq<TypeDecl>, g: Sig) {
    && (forall i :: 0 <= i < |g.params| ==> g.params[i] < |ts|)
    && (g.ret.Some? ==> g.ret.value < |ts|)
  }

  function Proto(t: TypeId, g: Sig): ProcDecl { ProcDecl(g.name, Some(t), g.params, g.ret, true, None) }

  function Procedure(t: TypeId, g: Sig): ProcDecl { ProcDecl(g.name, Some(t), g.params, g.ret, false, None) }

  function Prototypes(s: State, t: TypeId, gs: seq<Sig>): (r: State)
    requires StateOk(s) && IsRecord(s.h, t) && forall i :: 0 <= i < |gs| ==> InScope(s.h.types, gs[i])
    ensures StateOk(r) && Grows(s.h.types, r.h.types) && |r.h.types| == |s.h.types|
    decreases |gs|
  {
    if gs == [] then s
    else
      var s1, p := Prototypes(s, t, gs[..|gs| - 1]), Proto(t, gs[|gs| - 1]);
      PrototypeStep(s, s1, t, gs[|gs| - 1]);
      Prototype(s1, t, p)
  }

  lemma PrototypeStep(s: State, s1: State, t: TypeId, g: Sig)
    requires StateOk(s) && StateOk(s1) && IsRecord(s.h, t) && InScope(s.h.types, g)
    requires Grows(s.h.types, s1.h.types) && |s1.h.types| == |s.h.types|
    ensures IsRecord(s1.h, t) && SigIn(s1.h.types, Proto(t, g))
    ensures var r := Prototype(s1, t, Proto(t, g));
            StateOk(r) && Grows(s.h.types, r.h.types) && |r.h.types| == |s.h.types|
  {
    assert Bare(s1.h.types[t]) == Bare(s.h.types[t]);
    PrototypeOk(s1, t, Proto(t, g));
    var r := Prototype(s1, t, Proto(t, g));
    forall u | 0 <= u < |s.h.types| ensures Bare(r.h.types[u]) == Bare(s.h.types[u]) {
      assert Bare(r.h.types[u]) == Bare(s1.h.types[u]) && Bare(s1.h.types[u]) == Bare(s.h.types[u]);
    }
  }

  /** actOnRecordType, up to the methods. */
  function NewRecord(s: State, base: Option<TypeId>, fields: seq<FieldDecl>): (r: State)
    requires StateOk(s) && (base.Some? ==> base.value < |s.h.types|)
    requires forall i :: 0 <= i < |fields| ==> fields[i].ty < |s.h.types|
    ensures StateOk(r) && Grows(s.h.types, r.h.types) && |r.h.types| == |s.h.types| + 1 && IsRecord(r.h, |s.h.types|)
  {
    var rec := BaseRecord(s.h.types, base);
    var s1 := if rec.Some? then SetTag(s, rec.value) else s;
    var s2 := AddType(s1, RecordOf(rec, fields, [], rec.Some?));
    NewRecordOk(s, base, fields);
    s2.(errors := s.errors + (if base.Some? && rec.None? then [BaseMustBeRecord] else []) +
        Conflicts(s2.h.types, rec, fields))
  }

  lemma NewRecordOk(s: State, base: Option<TypeId>, fields: seq<FieldDecl>)
    requires StateOk(s) && (base.Some? ==> base.value < |s.h.types|)
    requires forall i :: 0 <= i < |fields| ==> fields[i].ty < |s.h.types|
    ensures var rec := BaseRecord(s.h.types, base);
            var s1 := if rec.Some? then SetTag(s, rec.value) else s;
            var s2 := AddType(s1, RecordOf(rec, fields, [], rec.Some?));
            && StateOk(s2) && Grows(s.h.types, s2.h.types) && SameTables(s.h, s2.h)
            && forall errors :: StateOk(s2.(errors := errors))
  {
    var rec := BaseRecord(s.h.types, base);
    var s1 := if rec.Some? then SetTag(s, rec.value) else s;
    var d := RecordOf(rec, fields, [], rec.Some?);
    SameTablesRefl(s.h);
    if rec.Some? {
      SetTagOk(s, rec.value);
      SetTagTables(s, rec.value);
    }
    AddTypeOk(s1, d);
    AddTypeTables(s1, d);
    SameTablesTrans(s.h, s1.h, AddType(s1, d).h);
    forall errors ensures StateOk(AddType(s1, d).(errors := errors)) { ErrorsIrrelevant(AddType(s1, d), errors); }
  }

  lemma ErrorsIrrelevant(s: State, errors: seq<Error>)
    requires StateOk(s)
    ensures StateOk(s.(errors := errors))
  {
    var s1 := s.(errors := errors);
    forall t | 0 <= t < |s.h.types| && s.h.types[t].RecordOf? ensures TableOk(s1, t) {
      assert TableOk(s, t);
      forall i | 0 <= i < |s.h.types[t].methods| ensures EntryOk(s1, t, s.h.types[t].tag, s.h.types[t].methods[i]) {
        assert EntryOk(s, t, s.h.types[t].tag, s.h.types[t].methods[i]);
      }
    }
  }
}
