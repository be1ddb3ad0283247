/** Sema as a machine over declarations, and what holds of a module it accepts. */
module Semantics {
  import opened Source
  import opened Types
  import opened Methods
  import opened Registration
  import opened Agreement
  import opened Clashes

  datatype Act =
    | TypeAlias(name: Name, target: Option<TypeId>, isNew: bool)     // isNew: in its scope
    | ArrayType(low: Option<int>, high: Option<int>, elem: TypeId)   // None: a bound that is no constant
    | RecordType(base: Option<TypeId>, fields: seq<FieldDecl>, methods: seq<Sig>)
    | Method(receiver: Option<TypeId>, sig: Sig)

  /** An act mentions declared types, and its fields have different names. */
  predicate CanAct(ts: seq<TypeDecl>, a: Act) {
    match a
    case TypeAlias(_, target, _) => target.Some? ==> target.value < |ts|
    case ArrayType(_, _, e) => e < |ts|
    case RecordType(base, fields, methods) =>
      && (base.Some? ==> base.value < |ts|)
      && (forall i :: 0 <= i < |fields| ==> fields[i].ty < |ts|)
      && (forall i, j :: 0 <= i < j < |fields| ==> fields[i].name != fields[j].name)
      && (forall i :: 0 <= i < |methods| ==> InScope(ts, methods[i]))
    case Method(receiver, g) => (receiver.Some? ==> receiver.value < |ts|) && InScope(ts, g)
  }

  /** The bounds an array type gets, and the errors. */
  function Bounds(low: Option<int>, high: Option<int>): (r: (int, int, seq<Error>))
    ensures r.0 <= r.1
    ensures r.2 == [] <==> low.Some? && high.Some? && low.value <= high.value
    ensures r.2 == [] ==> r.0 == low.value && r.1 == high.value
    ensures low.Some? && high.Some? && low.value > high.value ==> r.0 == r.1 == low.value
  {
    if low.None? || high.None? then (0, 0, [ArrayBoundNotConstant])
    else if low.value > high.value then (low.value, low.value, [ArrayBoundInvalid])
    else (low.value, high.value, [])
  }

  predicate HasField(fields: seq<FieldDecl>, name: Name) {
    exists i :: 0 <= i < |fields| && fields[i].name == name
  }

  /** The fields that a list of names adds: one for each name that is new. */
  function Added(fields: seq<FieldDecl>, ids: seq<Name>, ty: TypeId): seq<FieldDecl>
    decreases |ids|
  {
    if ids == [] then []
    else
      var n := |ids| - 1;
      Added(fields, ids[..n], ty) +
      if HasField(fields, ids[n]) || ids[n] in ids[..n] then [] else [FieldDecl(ids[n], ty)]
  }

  /** And the reports for those that are not. */
  function Repeated(fields: seq<FieldDecl>, ids: seq<Name>): seq<Error>
    decreases |ids|
  {
    if ids == [] then []
    else
      var n := |ids| - 1;
      Repeated(fields, ids[..n]) +
      if HasField(fields, ids[n]) || ids[n] in ids[..n] then [SymbolDeclared(ids[n])] else []
  }

  lemma {:induction false} HasAdded(fields: seq<FieldDecl>, ids: seq<Name>, ty: TypeId, x: Name)
    ensures HasField(fields + Added(fields, ids, ty), x) <==> HasField(fields, x) || x in ids
    decreases |ids|
  {
    var all := fields + Added(fields, ids, ty);
    if ids == [] {
      assert all == fields;
    } else {
      var n := |ids| - 1;
      var before := fields + Added(fields, ids[..n], ty);
      HasAdded(fields, ids[..n], ty, x);
      assert ids == ids[..n] + [ids[n]];
      if HasField(fields, ids[n]) || ids[n] in ids[..n] {
        assert all == before;
      } else {
        assert all == before + [FieldDecl(ids[n], ty)];
        HasLast(before, FieldDecl(ids[n], ty), x);
      }
    }
  }

  lemma HasLast(fields: seq<FieldDecl>, f: FieldDecl, x: Name)
    ensures HasField(fields + [f], x) <==> HasField(fields, x) || f.name == x
  {
    var all := fields + [f];
    if HasField(fields, x) {
      var i :| 0 <= i < |fields| && fields[i].name == x;
      assert all[i].name == x;
    }
    if f.name == x { assert all[|fields|].name == x; }
    if HasField(all, x) {
      var i :| 0 <= i < |all| && all[i].name == x;
      assert i < |fields| ==> fields[i].name == x;
    }
  }

  function Apply(s: State, a: Act): (r: State)
    requires StateOk(s) && CanAct(s.h.types, a)
    ensures StateOk(r) && Grows(s.h.types, r.h.types)
  {
    match a
    case TypeAlias(name, target, isNew) =>
      if target.None? then ReportOk(s, TypeRequired); Report(s, TypeRequired)
      else if !isNew then ReportOk(s, SymbolDeclared(name)); Report(s, SymbolDeclared(name))
      else AddTypeOk(s, Alias(target.value)); AddType(s, Alias(target.value))
    case ArrayType(low, high, e) =>
      var (lo, hi, errors) := Bounds(low, high);
      AddTypeOk(s, ArrayOf(e, lo, hi));
      ErrorsIrrelevant(AddType(s, ArrayOf(e, lo, hi)), s.errors + errors);
      AddType(s, ArrayOf(e, lo, hi)).(errors := s.errors + errors)
    case RecordType(base, fields, methods) =>
      var s1 := NewRecord(s, base, fields);
      GrowsTrans(s.h.types, s1.h.types, Prototypes(s1, |s.h.types|, methods).h.types);
      Prototypes(s1, |s.h.types|, methods)
    case Method(receiver, g) =>
      match BaseRecord(s.h.types, receiver)
      case Some(t) => HeadingOk(s, t, Procedure(t, g)); Heading(s, t, Procedure(t, g))
      case None => ReportOk(s, ReceiverRequiresRecord); Report(s, ReceiverRequiresRecord)
  }

  lemma GrowsTrans(ts: seq<TypeDecl>, ts1: seq<TypeDecl>, ts2: seq<TypeDecl>)
    requires Grows(ts, ts1) && Grows(ts1, ts2)
    ensures Grows(ts, ts2)
  {
    forall t | 0 <= t < |ts| ensures Bare(ts2[t]) == Bare(ts[t]) {
      assert Bare(ts1[t]) == Bare(ts[t]);
    }
  }

  // ----- the object itself -----

  /** The declarations, the methods waiting for a definition, and the errors. */
  class Sema {
    var h: Decls
    var declared: seq<ProcId>
    var errors: seq<Error>

    ghost function St(): State
      reads this
    {
      State(h, declared, errors)
    }

    ghost predicate Valid()
      reads this
    {
      StateOk(St())
    }

    constructor ()
      ensures St() == INIT && Valid()
    {
      h := INIT.h;
      declared := [];
      errors := [];
      new;
      InitOk();
    }

    method Diagnose(e: Error)
      modifies this`errors
      ensures errors == old(errors) + [e]
    {
      errors := errors + [e];
    }

    /** In a scope with the given names; afterwards it has this one, too. */
    method ActOnTypeDeclaration(scope: set<Name>, name: Name, target: Option<TypeId>) returns (scope1: set<Name>)
      requires Valid() && CanAct(h.types, TypeAlias(name, target, name !in scope))
      modifies this
      ensures Valid() && St() == Apply(old(St()), TypeAlias(name, target, name !in scope))
      ensures scope1 == if target.Some? then scope + {name} else scope
    {
      ghost var a := TypeAlias(name, target, name !in scope);
      scope1 := scope;
      if target.None? {
        Diagnose(TypeRequired);
      } else if name !in scope {
        scope1 := scope + {name};
        h := h.(types := h.types + [Alias(target.value)]);
      } else {
        Diagnose(SymbolDeclared(name));
      }
      assert St() == Apply(old(St()), a);
    }

    method ActOnArrayType(low: Option<int>, high: Option<int>, elem: TypeId) returns (t: TypeId)
      requires Valid() && CanAct(h.types, ArrayType(low, high, elem))
      modifies this
      ensures Valid() && St() == Apply(old(St()), ArrayType(low, high, elem)) && t == |old(h).types|
    {
      var lo, hi := 0, 0;
      if low.None? || high.None? {
        Diagnose(ArrayBoundNotConstant);
      } else {
        lo, hi := low.value, high.value;
      }
      if lo > hi {
        Diagnose(ArrayBoundInvalid);
        hi := lo;
      }
      t := |h.types|;
      h := h.(types := h.types + [ArrayOf(elem, lo, hi)]);
      assert St() == Apply(old(St()), ArrayType(low, high, elem));
    }

    /** One field list x, y: T of a record body; duplicates are left out. */
    method ActOnFieldDeclaration(fields: seq<FieldDecl>, ids: seq<Name>, ty: TypeId) returns (r: seq<FieldDecl>)
      requires forall i, j :: 0 <= i < j < |fields| ==> fields[i].name != fields[j].name
      modifies this`errors
      ensures r == fields + Added(fields, ids, ty) && errors == old(errors) + Repeated(fields, ids)
      ensures forall i, j :: 0 <= i < j < |r| ==> r[i].name != r[j].name
    {
      r := fields;
      for k := 0 to |ids|
        invariant r == fields + Added(fields, ids[..k], ty) && errors == old(errors) + Repeated(fields, ids[..k])
        invariant forall i, j :: 0 <= i < j < |r| ==> r[i].name != r[j].name
      {
        assert ids[..k + 1][..k] == ids[..k] && ids[..k + 1][k] == ids[k];
        HasAdded(fields, ids[..k], ty, ids[k]);
        if HasField(r, ids[k]) {
          Diagnose(SymbolDeclared(ids[k]));
        } else {
          r := r + [FieldDecl(ids[k], ty)];
        }
      }
      assert ids[..|ids|] == ids;
    }

    method ActOnRecordType(base: Option<TypeId>, fields: seq<FieldDecl>, methods: seq<Sig>) returns (t: TypeId)
      requires Valid() && CanAct(h.types, RecordType(base, fields, methods))
      modifies this
      ensures Valid() && St() == Apply(old(St()), RecordType(base, fields, methods)) && t == |old(h).types|
    {
      t := |h.types|;
      OpenRecord(base, fields);
      assert St() == NewRecord(old(St()), base, fields);
      AddPrototypes(t, methods);
    }

    method AddPrototypes(t: TypeId, methods: seq<Sig>)
      requires Valid() && IsRecord(h, t) && forall i :: 0 <= i < |methods| ==> InScope(h.types, methods[i])
      modifies this
      ensures Valid() && St() == Prototypes(old(St()), t, methods)
    {
      ghost var s := St();
      for i := 0 to |methods|
        invariant Valid() && St() == Prototypes(s, t, methods[..i])
      {
        PrototypeStep(s, St(), t, methods[i]);
        ActOnMethodInRecord(t, Proto(t, methods[i]));
        assert methods[..i + 1][..i] == methods[..i];
      }
      assert methods[..|methods|] == methods;
    }

    /** The record itself: its base, its tag, and conflicts of its fields. */
    method OpenRecord(base: Option<TypeId>, fields: seq<FieldDecl>)
      requires Valid() && CanAct(h.types, RecordType(base, fields, []))
      modifies this
      ensures St() == NewRecord(old(St()), base, fields)
    {
      var rec := BaseRecord(h.types, base);
      if base.Some? && rec.None? { Diagnose(BaseMustBeRecord); }
      DeclareRecord(rec, fields);
      assert TypesOk(h.types) by { NewRecordOk(old(St()), base, fields); }
      ReportConflicts(rec, fields);
      assert errors == old(errors) + (if base.Some? && rec.None? then [BaseMustBeRecord] else []) +
             Conflicts(h.types, rec, fields);
    }

    /** A record declaration; base and extension both have the tag. */
    method DeclareRecord(rec: Option<TypeId>, fields: seq<FieldDecl>)
      requires rec.Some? ==> IsRecord(h, rec.value)
      modifies this`h
      ensures h == AddType(if rec.Some? then SetTag(old(St()), rec.value) else old(St()),
                           RecordOf(rec, fields, [], rec.Some?)).h
    {
      if rec.Some? { h := SetRecord(h, rec.value, h.types[rec.value].methods, true); }
      h := h.(types := h.types + [RecordOf(rec, fields, [], rec.Some?)]);
    }

    method ReportConflicts(rec: Option<TypeId>, fields: seq<FieldDecl>)
      requires TypesOk(h.types) && (rec.Some? ==> rec.value < |h.types| && h.types[rec.value].RecordOf?)
      modifies this`errors
      ensures errors == old(errors) + Conflicts(h.types, rec, fields)
    {
      for i := 0 to |fields|
        invariant errors == old(errors) + Conflicts(h.types, rec, fields[..i])
      {
        ConflictsNext(h.types, rec, fields, i);
        ghost var before := Conflicts(h.types, rec, fields[..i]);
        assert old(errors) + before + [] == old(errors) + before;
        if rec.Some? && LookupField(h.types, rec.value, fields[i].name).Some? {
          Diagnose(FieldConflictsWithBase(fields[i].name));
          assert errors == old(errors) + (before + [FieldConflictsWithBase(fields[i].name)]);
        }
      }
      assert fields[..|fields|] == fields;
    }

    /** A prototype in the body of record t. */
    method ActOnMethodInRecord(t: TypeId, p: ProcDecl)
      requires Valid() && IsRecord(h, t) && SigIn(h.types, p) && p.definition.None? && p.prototype &&
               p.receiver == Some(t)
      modifies this
      ensures Valid() && St() == Prototype(old(St()), t, p)
    {
      PrototypeOk(St(), t, p);
      AddProcOk(St(), p);
      var m := |h.procs|;
      h := h.(procs := h.procs + [p]);
      var ms := h.types[t].methods;
      var i := SearchName(h, ms, p.name);
      if i < |ms| {
        Diagnose(DuplicateMethod(p.name));
        return;
      }
      var inherited := LookupMethod(h, t, p.name);
      if inherited.Some? {
        var same := HasSameSignature(h.types, h.procs[inherited.value], p);
        if !same {
          Diagnose(SignatureMismatch(p.name));
          return;
        }
      }
      h := SetRecord(h, t, ms + [m], h.types[t].tag);
      declared := declared + [m];
    }

    /** A procedure with a receiver, whose type is given. */
    method ActOnMethod(receiver: Option<TypeId>, g: Sig)
      requires Valid() && CanAct(h.types, Method(receiver, g))
      modifies this
      ensures Valid() && St() == Apply(old(St()), Method(receiver, g))
    {
      var rec := BaseRecord(h.types, receiver);
      if rec.None? {
        ReportOk(St(), ReceiverRequiresRecord);
        Diagnose(ReceiverRequiresRecord);
        return;
      }
      Prepared(St(), rec.value, Procedure(rec.value, g));
      h := h.(procs := h.procs + [Procedure(rec.value, g)]);
      h := SetRecord(h, rec.value, h.types[rec.value].methods, true);
      ActOnProcedureHeading(rec.value, |h.procs| - 1);
    }

    /** Registers procedure m with its receiver type t. */
    method ActOnProcedureHeading(t: TypeId, m: ProcId)
      requires Valid() && IsRecord(h, t) && m < |h.procs| && EntryOk(St(), t, h.types[t].tag, m) && h.types[t].tag
      requires !h.procs[m].prototype
      modifies this
      ensures Valid() && St() == Bind(old(St()), t, m)
    {
      BindOk(St(), t, m);
      var p, ms := h.procs[m], h.types[t].methods;
      var i := SearchName(h, ms, p.name);
      if i < |ms| {
        var own := ms[i];
        if !h.procs[own].prototype {
          Diagnose(DuplicateMethod(p.name));
          return;
        }
        var same := HasSameSignature(h.types, h.procs[own], p);
        if !same { Diagnose(SignatureMismatch(p.name)); }
        h := h.(procs := h.procs[own := h.procs[own].(definition := Some(m))]);
        ReplaceMethod(t, own, m);
        return;
      }
      var inherited := LookupMethod(h, t, p.name);
      if inherited.Some? {
        var same := HasSameSignature(h.types, h.procs[inherited.value], p);
        if !same {
          Diagnose(SignatureMismatch(p.name));
          return;
        }
      }
      h := SetRecord(h, t, ms + [m], h.types[t].tag);
    }

    method ReplaceMethod(t: TypeId, proto: ProcId, impl: ProcId)
      requires IsRecord(h, t)
      modifies this`h
      ensures h == SetRecord(old(h), t, Replaced(old(h).types[t].methods, proto, impl), old(h).types[t].tag)
    {
      var ms := h.types[t].methods;
      for i := 0 to |ms|
        invariant |ms| == |h.types[t].methods|
        invariant forall k :: 0 <= k < |ms| ==>
                  ms[k] == if k < i && h.types[t].methods[k] == proto then impl else h.types[t].methods[k]
      {
        if ms[i] == proto { ms := ms[i := impl]; }
      }
      assert ms == Replaced(h.types[t].methods, proto, impl);
      h := SetRecord(h, t, ms, h.types[t].tag);
    }

    /** Every method declared in a record body needs an implementation. */
    method ActOnModuleEnd()
      requires Valid()
      modifies this`errors
      ensures errors == old(errors) + Missing(h.procs, declared)
    {
      for i := 0 to |declared|
        invariant errors == old(errors) + Missing(h.procs, declared[..i])
      {
        assert declared[..i + 1][..i] == declared[..i];
        if h.procs[declared[i]].definition.None? {
          Diagnose(MethodNotImplemented(h.procs[declared[i]].name));
        }
      }
      assert declared[..|declared|] == declared;
    }
  }

  lemma InitOk()
    ensures StateOk(INIT) && Agreed(INIT)
  {
    var ts := INIT.h.types;
    forall t | 0 <= t < |ts| ensures DeclOk(ts, t) && TagOk(ts, t) && ts[t].Named? {
      assert t == 0 || t == 1 || t == 2;
    }
  }

  const INIT: State := State(Decls([Named(Integer), Named(Real), Named(Boolean)], []), [], [])

  function Missing(ps: seq<ProcDecl>, ms: seq<ProcId>): seq<Error>
    requires forall i :: 0 <= i < |ms| ==> ms[i] < |ps|
    decreases |ms|
  {
    if ms == [] then []
    else
      var n := |ms| - 1;
      Missing(ps, ms[..n]) + if ps[ms[n]].definition.None? then [MethodNotImplemented(ps[ms[n]].name)] else []
  }

  // ----- a module from beginning to end -----

  function Runs(s: State, acts: seq<Act>): (r: Option<State>)
    requires StateOk(s)
    ensures r.Some? ==> StateOk(r.value)
    decreases |acts|
  {
    if acts == [] then Some(s)
    else if CanAct(s.h.types, acts[0]) then Runs(Apply(s, acts[0]), acts[1..])
    else None
  }

  lemma ConflictsNext(ts: seq<TypeDecl>, base: Option<TypeId>, fields: seq<FieldDecl>, i: nat)
    requires TypesOk(ts) && (base.Some? ==> base.value < |ts| && ts[base.value].RecordOf?) && i < |fields|
    ensures Conflicts(ts, base, fields[..i + 1]) == Conflicts(ts, base, fields[..i]) +
            if base.Some? && LookupField(ts, base.value, fields[i].name).Some?
            then [FieldConflictsWithBase(fields[i].name)] else []
  {
    assert fields[..i + 1][..i] == fields[..i];
  }

  // Errors stay.

  lemma {:induction false} PrototypesErrors(s: State, t: TypeId, gs: seq<Sig>)
    requires StateOk(s) && IsRecord(s.h, t) && forall i :: 0 <= i < |gs| ==> InScope(s.h.types, gs[i])
    ensures s.errors <= Prototypes(s, t, gs).errors
    ensures Grows(s.h.types, Prototypes(s, t, gs).h.types)
    decreases |gs|
  {
    if gs != [] {
      PrototypesErrors(s, t, gs[..|gs| - 1]);
      PrototypeStep(s, Prototypes(s, t, gs[..|gs| - 1]), t, gs[|gs| - 1]);
    }
  }

  lemma ApplyErrors(s: State, a: Act)
    requires StateOk(s) && CanAct(s.h.types, a)
    ensures s.errors <= Apply(s, a).errors
  {
    if a.RecordType? { PrototypesErrors(NewRecord(s, a.base, a.fields), |s.h.types|, a.methods); }
  }

  lemma {:induction false} RunsErrors(s: State, acts: seq<Act>)
    requires StateOk(s) && Runs(s, acts).Some?
    ensures s.errors <= Runs(s, acts).value.errors
    decreases |acts|
  {
    if acts != [] {
      ApplyErrors(s, acts[0]);
      RunsErrors(Apply(s, acts[0]), acts[1..]);
    }
  }

  // Every slot is implemented.

  lemma {:induction false} MissingNone(ps: seq<ProcDecl>, ms: seq<ProcId>, i: nat)
    requires (forall j :: 0 <= j < |ms| ==> ms[j] < |ps|) && Missing(ps, ms) == [] && i < |ms|
    ensures ps[ms[i]].definition.Some?
    decreases |ms|
  {
    if i < |ms| - 1 { MissingNone(ps, ms[..|ms| - 1], i); }
  }

  /** No prototype is left in a method table. */
  lemma NoPrototypeLeft(s: State, t: TypeId, i: nat)
    requires StateOk(s) && Missing(s.h.procs, s.declared) == [] && IsRecord(s.h, t) && i < |s.h.types[t].methods|
    ensures !s.h.procs[s.h.types[t].methods[i]].prototype && s.h.types[t].tag
  {
    assert TableOk(s, t);
    var m := s.h.types[t].methods[i];
    assert EntryOk(s, t, s.h.types[t].tag, m);
    if s.h.procs[m].prototype {
      var j :| 0 <= j < |s.declared| && s.declared[j] == m;
      MissingNone(s.h.procs, s.declared, j);
    }
  }

  /** A method in the flattened table: an implementation whose receiver is the
      record or one it extends. */
  ghost predicate SlotOk(s: State, t: TypeId, m: ProcId)
    requires StateOk(s) && IsRecord(s.h, t) && m < |s.h.procs|
  {
    && !s.h.procs[m].prototype
    && s.h.procs[m].receiver.Some? && Extends(s.h.types, t, s.h.procs[m].receiver.value)
  }

  lemma {:induction false} PutAllOk(s: State, t: TypeId, slots: seq<ProcId>, ms: seq<ProcId>)
    requires StateOk(s) && IsRecord(s.h, t) && ProcsIn(s.h, slots) && ProcsIn(s.h, ms)
    requires forall i :: 0 <= i < |slots| ==> SlotOk(s, t, slots[i])
    requires forall i :: 0 <= i < |ms| ==> SlotOk(s, t, ms[i])
    ensures forall i :: 0 <= i < |PutAll(s.h, slots, ms)| ==> SlotOk(s, t, PutAll(s.h, slots, ms)[i])
    decreases |ms|
  {
    if ms != [] { PutAllOk(s, t, slots, ms[..|ms| - 1]); }
  }

  /** In a module that ends without errors, no method slot holds a prototype, and
      what has slots has a tag to find them by. */
  lemma {:induction false} EverySlotImplemented(s: State, t: TypeId)
    requires StateOk(s) && Missing(s.h.procs, s.declared) == [] && IsRecord(s.h, t)
    ensures forall i :: 0 <= i < |Slots(s.h, t)| ==> SlotOk(s, t, Slots(s.h, t)[i])
    ensures Slots(s.h, t) != [] ==> s.h.types[t].tag
    decreases t
  {
    var rec := s.h.types[t];
    var inherited := if Base(s.h.types, t).Some? then Slots(s.h, Base(s.h.types, t).value) else [];
    assert TagOk(s.h.types, t);
    if Base(s.h.types, t).Some? {
      EverySlotImplemented(s, Base(s.h.types, t).value);
      forall i | 0 <= i < |inherited| ensures SlotOk(s, t, inherited[i]) {
        assert SlotOk(s, Base(s.h.types, t).value, inherited[i]);
      }
    }
    forall i | 0 <= i < |rec.methods| ensures SlotOk(s, t, rec.methods[i]) {
      NoPrototypeLeft(s, t, i);
      assert TableOk(s, t);
      assert EntryOk(s, t, rec.tag, rec.methods[i]);
    }
    PutAllOk(s, t, inherited, rec.methods);
    if rec.methods != [] { NoPrototypeLeft(s, t, 0); }
  }

  // Field names are distinct.

  function OwnNames(fields: seq<FieldDecl>): (r: seq<Name>)
    ensures |r| == |fields| && forall i :: 0 <= i < |r| ==> r[i] == fields[i].name
  {
    seq(|fields|, i requires 0 <= i < |fields| => fields[i].name)
  }

  /** The names of the fields of t, those of its base first. */
  function FieldNames(ts: seq<TypeDecl>, t: TypeId): seq<Name>
    requires TypesOk(ts) && t < |ts| && ts[t].RecordOf?
    decreases t
  {
    (if Base(ts, t).Some? then FieldNames(ts, Base(ts, t).value) else []) + OwnNames(ts[t].fields)
  }

  lemma {:induction false} FieldNamesAre(ts: seq<TypeDecl>, t: TypeId)
    requires TypesOk(ts) && t < |ts| && ts[t].RecordOf?
    ensures |FieldNames(ts, t)| == |AllFields(ts, t)|
    ensures forall i :: 0 <= i < |AllFields(ts, t)| ==> FieldNames(ts, t)[i] == FieldName(ts, AllFields(ts, t)[i])
    decreases t
  {
    if Base(ts, t).Some? { FieldNamesAre(ts, Base(ts, t).value); }
  }

  ghost predicate NamesDistinct(ts: seq<TypeDecl>, t: TypeId)
    requires TypesOk(ts) && t < |ts| && ts[t].RecordOf?
  {
    Distinct(FieldNames(ts, t))
  }

  ghost predicate FieldsOk(ts: seq<TypeDecl>)
    requires TypesOk(ts)
  {
    forall t {:trigger NamesDistinct(ts, t)} :: 0 <= t < |ts| && ts[t].RecordOf? ==> NamesDistinct(ts, t)
  }

  lemma {:induction false} FieldNamesGrow(ts: seq<TypeDecl>, ts1: seq<TypeDecl>, t: TypeId)
    requires TypesOk(ts) && TypesOk(ts1) && Grows(ts, ts1) && t < |ts| && ts[t].RecordOf?
    ensures ts1[t].RecordOf? && FieldNames(ts1, t) == FieldNames(ts, t)
    decreases t
  {
    assert Bare(ts1[t]) == Bare(ts[t]);
    if Base(ts, t).Some? { FieldNamesGrow(ts, ts1, Base(ts, t).value); }
  }

  lemma FieldsGrow(ts: seq<TypeDecl>, ts1: seq<TypeDecl>)
    requires TypesOk(ts) && TypesOk(ts1) && Grows(ts, ts1) && FieldsOk(ts)
    requires forall t {:trigger NamesDistinct(ts1, t)} ::
             |ts| <= t < |ts1| && ts1[t].RecordOf? ==> NamesDistinct(ts1, t)
    ensures FieldsOk(ts1)
  {
    forall t | 0 <= t < |ts1| && ts1[t].RecordOf? ensures NamesDistinct(ts1, t) {
      if t < |ts| {
        assert Bare(ts1[t]) == Bare(ts[t]);
        NamesDistinctGrows(ts, ts1, t);
      }
    }
  }

  lemma {:induction false} NoConflict(ts: seq<TypeDecl>, base: TypeId, fields: seq<FieldDecl>, i: nat)
    requires TypesOk(ts) && base < |ts| && ts[base].RecordOf? && Conflicts(ts, Some(base), fields) == [] && i < |fields|
    ensures LookupField(ts, base, fields[i].name).None?
    decreases |fields|
  {
    if i < |fields| - 1 { NoConflict(ts, base, fields[..|fields| - 1], i); }
  }

  lemma NewNamesDistinct(ts: seq<TypeDecl>, t: TypeId)
    requires TypesOk(ts) && t < |ts| && ts[t].RecordOf? && (Base(ts, t).Some? ==> NamesDistinct(ts, Base(ts, t).value))
    requires Conflicts(ts, Base(ts, t), ts[t].fields) == []
    requires forall i, j :: 0 <= i < j < |ts[t].fields| ==> ts[t].fields[i].name != ts[t].fields[j].name
    ensures NamesDistinct(ts, t)
  {
    var own := OwnNames(ts[t].fields);
    if Base(ts, t).Some? {
      NoneInherited(ts, Base(ts, t).value, ts[t].fields);
      DistinctAppend(FieldNames(ts, Base(ts, t).value), own);
    } else {
      DistinctAppend([], own);
    }
  }

  lemma NoneInherited(ts: seq<TypeDecl>, b: TypeId, fields: seq<FieldDecl>)
    requires TypesOk(ts) && b < |ts| && ts[b].RecordOf? && Conflicts(ts, Some(b), fields) == []
    ensures forall i :: 0 <= i < |fields| ==> OwnNames(fields)[i] !in FieldNames(ts, b)
  {
    forall i | 0 <= i < |fields| ensures OwnNames(fields)[i] !in FieldNames(ts, b) {
      NoConflict(ts, b, fields, i);
      NotFound(ts, b, fields[i].name);
    }
  }

  lemma DistinctAppend(a: seq<Name>, b: seq<Name>)
    requires Distinct(a) && Distinct(b) && forall i :: 0 <= i < |b| ==> b[i] !in a
    ensures Distinct(a + b)
  {
  }

  lemma {:induction false} NotFound(ts: seq<TypeDecl>, t: TypeId, name: Name)
    requires TypesOk(ts) && t < |ts| && ts[t].RecordOf? && LookupField(ts, t, name).None?
    ensures name !in FieldNames(ts, t)
    decreases t
  {
    assert OwnField(ts[t].fields, name).None?;
    if Base(ts, t).Some? { NotFound(ts, Base(ts, t).value, name); }
    assert name !in OwnNames(ts[t].fields);
  }

  lemma ApplyFields(s: State, a: Act)
    requires StateOk(s) && CanAct(s.h.types, a) && FieldsOk(s.h.types) && Apply(s, a).errors == s.errors
    ensures FieldsOk(Apply(s, a).h.types)
  {
    if a.RecordType? {
      var s1 := NewRecord(s, a.base, a.fields);
      PrototypesErrors(s1, |s.h.types|, a.methods);
      NewRecordFields(s, a.base, a.fields);
      FieldsGrow(s1.h.types, Apply(s, a).h.types);
    } else {
      NoNewRecord(s, a);
      FieldsGrow(s.h.types, Apply(s, a).h.types);
    }
  }

  lemma NoNewRecord(s: State, a: Act)
    requires StateOk(s) && CanAct(s.h.types, a) && !a.RecordType?
    ensures forall t :: |s.h.types| <= t < |Apply(s, a).h.types| ==> !Apply(s, a).h.types[t].RecordOf?
  {
    if a.Method? {
      var t := BaseRecord(s.h.types, a.receiver);
      if t.Some? { Prepared(s, t.value, Procedure(t.value, a.sig)); }
    }
  }

  lemma NewRecordFields(s: State, base: Option<TypeId>, fields: seq<FieldDecl>)
    requires StateOk(s) && CanAct(s.h.types, RecordType(base, fields, [])) && FieldsOk(s.h.types)
    requires NewRecord(s, base, fields).errors <= s.errors
    ensures FieldsOk(NewRecord(s, base, fields).h.types)
  {
    ConflictsStay(s, base, fields);
    LastNamesDistinct(s.h.types, NewRecord(s, base, fields).h.types);
  }

  lemma LastNamesDistinct(ts: seq<TypeDecl>, ts1: seq<TypeDecl>)
    requires TypesOk(ts) && TypesOk(ts1) && Grows(ts, ts1) && FieldsOk(ts) && |ts1| == |ts| + 1 && ts1[|ts|].RecordOf?
    requires Conflicts(ts1, Base(ts1, |ts|), ts1[|ts|].fields) == []
    requires forall i, j :: 0 <= i < j < |ts1[|ts|].fields| ==> ts1[|ts|].fields[i].name != ts1[|ts|].fields[j].name
    ensures FieldsOk(ts1)
  {
    var base := Base(ts1, |ts|);
    if base.Some? {
      assert Bare(ts1[base.value]) == Bare(ts[base.value]);
      NamesDistinctGrows(ts, ts1, base.value);
    }
    NewNamesDistinct(ts1, |ts|);
    FieldsGrow(ts, ts1);
  }

  lemma NamesDistinctGrows(ts: seq<TypeDecl>, ts1: seq<TypeDecl>, t: TypeId)
    requires TypesOk(ts) && TypesOk(ts1) && Grows(ts, ts1) && t < |ts| && ts[t].RecordOf? && FieldsOk(ts)
    ensures ts1[t].RecordOf? && NamesDistinct(ts1, t)
  {
    assert NamesDistinct(ts, t);
    FieldNamesGrow(ts, ts1, t);
  }

  lemma ConflictsStay(s: State, base: Option<TypeId>, fields: seq<FieldDecl>)
    requires StateOk(s) && CanAct(s.h.types, RecordType(base, fields, []))
    ensures var s1, t := NewRecord(s, base, fields), |s.h.types|;
            && s1.h.types[t].fields == fields && s.errors <= s1.errors
            && (s1.errors == s.errors ==> Conflicts(s1.h.types, Base(s1.h.types, t), fields) == [])
  {
  }

  lemma {:induction false} RunsFields(s: State, acts: seq<Act>)
    requires StateOk(s) && FieldsOk(s.h.types) && Runs(s, acts).Some? && Runs(s, acts).value.errors == s.errors
    ensures FieldsOk(Runs(s, acts).value.h.types)
    decreases |acts|
  {
    if acts != [] {
      ApplyErrors(s, acts[0]);
      RunsErrors(Apply(s, acts[0]), acts[1..]);
      ApplyFields(s, acts[0]);
      RunsFields(Apply(s, acts[0]), acts[1..]);
    }
  }

  // Overriding methods agree.

  /** No method with a receiver comes after a conflicting one of an extension. */
  ghost predicate NotLate(s: State, acts: seq<Act>)
    requires StateOk(s)
    decreases |acts|
  {
    acts != [] && CanAct(s.h.types, acts[0]) ==> !LateBase(s, acts[0]) && NotLate(Apply(s, acts[0]), acts[1..])
  }

  ghost predicate LateBase(s: State, a: Act)
    requires StateOk(s) && CanAct(s.h.types, a)
  {
    && a.Method? && BaseRecord(s.h.types, a.receiver).Some?
    && var t := BaseRecord(s.h.types, a.receiver).value;
       a.sig.name !in Names(s.h, s.h.types[t].methods) && !NoConflictBelow(s, t, Procedure(t, a.sig))
  }

  /** An accepted declaration keeps agreement exactly if it is not late. */
  lemma ApplyAgrees(s: State, a: Act)
    requires StateOk(s) && CanAct(s.h.types, a) && Agreed(s) && Apply(s, a).errors == s.errors
    ensures Agreed(Apply(s, a)) <==> !LateBase(s, a)
  {
    match a
    case TypeAlias(_, target, _) =>
      AddTypeTables(s, Alias(target.value));
      AgreedFrame(s, Apply(s, a));
    case ArrayType(low, high, e) =>
      var (lo, hi, errors) := Bounds(low, high);
      AddTypeTables(s, ArrayOf(e, lo, hi));
      AgreedFrame(s, Apply(s, a));
    case RecordType(base, fields, methods) =>
      NewRecordOk(s, base, fields);
      var s1 := NewRecord(s, base, fields);
      AgreedFrame(s, s1);
      PrototypesAgree(s1, |s.h.types|, methods);
    case Method(receiver, g) =>
      var t := BaseRecord(s.h.types, receiver).value;
      HeadingAgrees(s, t, Procedure(t, g));
  }

  lemma ScopeStays(ts: seq<TypeDecl>, ts1: seq<TypeDecl>, gs: seq<Sig>)
    requires |ts| <= |ts1| && forall i :: 0 <= i < |gs| ==> InScope(ts, gs[i])
    ensures forall i :: 0 <= i < |gs| ==> InScope(ts1, gs[i])
  {
  }

  /** An accepted declaration removes no clash. */
  lemma ApplyKeepsClash(s: State, a: Act, u: TypeId, t: TypeId, name: Name)
    requires StateOk(s) && CanAct(s.h.types, a) && Apply(s, a).errors == s.errors && Clash(s, u, t, name)
    ensures Clash(Apply(s, a), u, t, name)
  {
    match a
    case TypeAlias(_, target, _) =>
      AddTypeOk(s, Alias(target.value));
      TypeKeepsClash(s, Alias(target.value), s.errors, u, t, name);
    case ArrayType(low, high, e) =>
      var (lo, hi, errors) := Bounds(low, high);
      AddTypeOk(s, ArrayOf(e, lo, hi));
      TypeKeepsClash(s, ArrayOf(e, lo, hi), s.errors + errors, u, t, name);
    case RecordType(base, fields, methods) =>
      var s1 := NewRecord(s, base, fields);
      NewRecordKeepsClash(s, base, fields, u, t, name);
      ScopeStays(s.h.types, s1.h.types, methods);
      PrototypesKeepClash(s1, |s.h.types|, methods, u, t, name);
    case Method(receiver, g) =>
      var r := BaseRecord(s.h.types, receiver).value;
      HeadingKeepsClash(s, r, Procedure(r, g), u, t, name);
  }

  /** So agreement that is lost stays lost. */
  lemma {:induction false} RunsClash(s: State, acts: seq<Act>)
    requires StateOk(s) && !Agreed(s) && Runs(s, acts).Some? && Runs(s, acts).value.errors == s.errors
    ensures !Agreed(Runs(s, acts).value)
    decreases |acts|
  {
    if acts != [] {
      ApplyErrors(s, acts[0]);
      RunsErrors(Apply(s, acts[0]), acts[1..]);
      AgreedIff(s);
      var u: TypeId, t: TypeId, name: Name :| Clash(s, u, t, name);
      ApplyKeepsClash(s, acts[0], u, t, name);
      AgreedIff(Apply(s, acts[0]));
      RunsClash(Apply(s, acts[0]), acts[1..]);
    }
  }

  /** Along a run without errors methods agree in the end exactly if no method of
      a base came late. */
  lemma {:induction false} RunsAgree(s: State, acts: seq<Act>)
    requires StateOk(s) && Agreed(s) && Runs(s, acts).Some? && Runs(s, acts).value.errors == s.errors
    ensures Agreed(Runs(s, acts).value) <==> NotLate(s, acts)
    decreases |acts|
  {
    if acts != [] {
      ApplyErrors(s, acts[0]);
      RunsErrors(Apply(s, acts[0]), acts[1..]);
      ApplyAgrees(s, acts[0]);
      if LateBase(s, acts[0]) {
        RunsClash(Apply(s, acts[0]), acts[1..]);
      } else {
        RunsAgree(Apply(s, acts[0]), acts[1..]);
      }
    }
  }

  /** What holds of every record t of a module that ends without an error. */
  lemma AcceptedModule(acts: seq<Act>, s: State, t: TypeId)
    requires StateOk(INIT) && Runs(INIT, acts) == Some(s) && s.errors == [] && Missing(s.h.procs, s.declared) == [] &&
             IsRecord(s.h, t)
    ensures StateOk(s)
    ensures NamesDistinct(s.h.types, t)
    ensures forall i :: 0 <= i < |Slots(s.h, t)| ==> SlotOk(s, t, Slots(s.h, t)[i])
    ensures Slots(s.h, t) != [] ==> s.h.types[t].tag
    ensures Agreed(s) <==> NotLate(INIT, acts)
  {
    InitOk();
    assert StateOk(Runs(INIT, acts).value);
    RunsFields(INIT, acts);
    assert NamesDistinct(s.h.types, t);
    EverySlotImplemented(s, t);
    RunsAgree(INIT, acts);
  }

  // Where agreement is lost.

  /** A first method for record t. */
  lemma FirstMethod(s: State, t: TypeId, g: Sig)
    requires StateOk(s) && IsRecord(s.h, t) && InScope(s.h.types, g) && s.h.types[t].tag && s.h.types[t].methods == []
    requires MostDerived(s.h, t, g.name) == None
    ensures CanAct(s.h.types, Method(Some(t), g)) && Apply(s, Method(Some(t), g)).errors == s.errors
    ensures Apply(s, Method(Some(t), g)).h
            == Decls(s.h.types[t := s.h.types[t].(methods := [|s.h.procs|])], s.h.procs + [Procedure(t, g)])
  {
    var p, m := Procedure(t, g), |s.h.procs|;
    assert Underlying(s.h.types, t) == t;
    Prepared(s, t, p);
    var s1 := SetTag(AddProc(s, p), t);
    assert s1.h.types == s.h.types;
    SameMostDerived(s.h, s1.h, t, g.name);
    assert Bind(s1, t, m) == AddMethod(s1, t, m);
    assert s1.h.types[t].methods + [m] == [m];
  }

  /** Two records without methods, b extending a. */
  ghost predicate Extension(s: State, a: TypeId, b: TypeId) {
    && IsRecord(s.h, a) && IsRecord(s.h, b) && a != b && s.h.types[b].base == Some(a) && s.h.types[a].base == None
    && s.h.types[a].methods == [] && s.h.types[b].methods == [] && s.h.types[a].tag && s.h.types[b].tag
  }

  /** First a method for b, then one of that name but another signature for a:
      both are accepted, and do not agree. */
  lemma LateMethods(s: State, a: TypeId, b: TypeId, name: Name)
    requires StateOk(s) && Extension(s, a, b) && 0 < |s.h.types|
    ensures var acts := [Method(Some(b), Sig(name, [0], None)), Method(Some(a), Sig(name, [], None))];
            && Runs(s, acts).Some? && Runs(s, acts).value.errors == s.errors && !Agreed(Runs(s, acts).value)
  {
    var g, g1 := Sig(name, [0], None), Sig(name, [], None);
    assert MostDerived(s.h, b, name) == None by {
      assert OwnImpl(s.h, a, name) == None && OwnImpl(s.h, b, name) == None;
    }
    FirstMethod(s, b, g);
    var s1 := Apply(s, Method(Some(b), g));
    LateMethod(s1, a, b, |s.h.procs|, name);
    TwoSteps(s, Method(Some(b), g), s1, Method(Some(a), g1), Apply(s1, Method(Some(a), g1)));
  }

  lemma LateMethod(s: State, a: TypeId, b: TypeId, m: ProcId, name: Name)
    requires StateOk(s) && IsRecord(s.h, a) && IsRecord(s.h, b) && a != b && s.h.types[b].base == Some(a) &&
             s.h.types[a].base == None
    requires s.h.types[b].methods == [m] && s.h.types[a].methods == [] && s.h.types[a].tag && |s.h.procs| == m + 1
    requires s.h.procs[m] == Procedure(b, Sig(name, [0], None))
    ensures CanAct(s.h.types, Method(Some(a), Sig(name, [], None)))
    ensures var s1 := Apply(s, Method(Some(a), Sig(name, [], None))); s1.errors == s.errors && !Agreed(s1)
  {
    assert OwnImpl(s.h, a, name) == None;
    FirstMethod(s, a, Sig(name, [], None));
    Disagree(Apply(s, Method(Some(a), Sig(name, [], None))), a, b, m, name);
  }

  lemma Disagree(s: State, a: TypeId, b: TypeId, m: ProcId, name: Name)
    requires StateOk(s) && IsRecord(s.h, a) && IsRecord(s.h, b) && s.h.types[b].base == Some(a)
    requires s.h.types[b].methods == [m] && s.h.types[a].methods == [m + 1] && |s.h.procs| == m + 2
    requires s.h.procs[m] == Procedure(b, Sig(name, [0], None)) && s.h.procs[m + 1] == Procedure(a, Sig(name, [], None))
    ensures !Agreed(s)
  {
    assert Names(s.h, [m + 1])[0] == name && Names(s.h, [m])[0] == name;
    assert OwnImpl(s.h, a, name) == Some(m + 1) && OwnImpl(s.h, b, name) == Some(m);
    assert !AgreesAt(s, b, name);
  }

  lemma TwoRecords(s: State)
    requires StateOk(s)
    ensures var n := |s.h.types|; var r := Runs(s, [RecordType(None, [], []), RecordType(Some(n), [], [])]);
            r.Some? && r.value.errors == s.errors && Extension(r.value, n, n + 1) && |r.value.h.types| == n + 2
  {
    var n := |s.h.types|;
    var a, b := RecordType(None, [], []), RecordType(Some(n), [], []);
    EmptyRecord(s, None);
    var s1 := Apply(s, a);
    EmptyRecord(s1, Some(n));
    TwoSteps(s, a, s1, b, Apply(s1, b));
    Extended(s, n);
  }

  lemma Extended(s: State, n: nat)
    requires n == |s.h.types|
    ensures var s1 := AddType(s, RecordOf(None, [], [], false));
            Extension(AddType(SetTag(s1, n), RecordOf(Some(n), [], [], true)), n, n + 1)
  {
  }

  lemma TwoSteps(s: State, a: Act, s1: State, b: Act, s2: State)
    requires StateOk(s) && CanAct(s.h.types, a) && Apply(s, a) == s1 && CanAct(s1.h.types, b) && Apply(s1, b) == s2
    ensures Runs(s, [a, b]) == Some(s2)
  {
    RunsCons(s1, b, []);
    RunsCons(s, a, [b]);
    InTurn(a, b);
  }

  lemma InTurn(a: Act, b: Act)
    ensures [b] + [] == [b] && [a] + [b] == [a, b]
  {
  }

  /** In any module: A = RECORD END, B = RECORD (A) END, then m for B and m with
      another signature for A. Nothing is reported, and the two do not agree. */
  lemma LateBaseBreaksAgreement(s: State, name: Name)
    requires StateOk(s) && 0 < |s.h.types|
    ensures var n := |s.h.types|;
            var acts := [RecordType(None, [], []), RecordType(Some(n), [], [])] +
                        [Method(Some(n + 1), Sig(name, [0], None)), Method(Some(n), Sig(name, [], None))];
            && Runs(s, acts).Some? && Runs(s, acts).value.errors == s.errors && !Agreed(Runs(s, acts).value)
  {
    var n := |s.h.types|;
    var acts, acts1 := [RecordType(None, [], []), RecordType(Some(n), [], [])],
                       [Method(Some(n + 1), Sig(name, [0], None)), Method(Some(n), Sig(name, [], None))];
    TwoRecords(s);
    LateMethods(Runs(s, acts).value, n, n + 1, name);
    RunsAppend(s, acts, acts1);
  }

  lemma {:induction false} RunsAppend(s: State, acts: seq<Act>, acts1: seq<Act>)
    requires StateOk(s) && Runs(s, acts).Some?
    ensures Runs(s, acts + acts1) == Runs(Runs(s, acts).value, acts1)
    decreases |acts|
  {
    if acts == [] {
      assert acts + acts1 == acts1;
    } else {
      assert (acts + acts1)[1..] == acts[1..] + acts1;
      RunsAppend(Apply(s, acts[0]), acts[1..], acts1);
    }
  }

  lemma EmptyRecord(s: State, base: Option<TypeId>)
    requires StateOk(s) && (base.Some? ==> base.value < |s.h.types| && s.h.types[base.value].RecordOf?)
    ensures CanAct(s.h.types, RecordType(base, [], []))
    ensures Apply(s, RecordType(base, [], [])) ==
            AddType(if base.Some? then SetTag(s, base.value) else s, RecordOf(base, [], [], base.Some?))
  {
  }

  lemma RunsCons(s: State, a: Act, acts: seq<Act>)
    requires StateOk(s) && CanAct(s.h.types, a)
    ensures Runs(s, [a] + acts) == Runs(Apply(s, a), acts)
  {
    assert ([a] + acts)[1..] == acts;
  }
}
