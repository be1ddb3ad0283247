/** Method calls, put together: the record tables Sema builds, the descriptors
    made from them, and the call through a slot. */
module Dispatch {
  import opened Ir
  import opened Source
  import opened Types
  import opened Methods
  import opened Registration
  import opened Agreement
  import opened Semantics
  import opened Skeleton
  import opened Correctness
  import opened ZeroValues

  /** In memory, the descriptor of record t holds at each slot the code of the
      method in the flattened table of t. */
  ghost predicate Described(w: World, h: Decls, desc: TypeId -> Loc, code: ProcId -> nat)
    requires DeclsOk(h)
  {
    forall t: TypeId, i: nat {:trigger w.vtable(Ptr(desc(t)), i)} ::
      IsRecord(h, t) && i < |Slots(h, t)| ==> w.vtable(Ptr(desc(t)), i) == Fn(code(Slots(h, t)[i]))
  }

  lemma SlotHolds(w: World, h: Decls, desc: TypeId -> Loc, code: ProcId -> nat, b: TypeId, t: TypeId, name: Name)
    requires DeclsOk(h) && Described(w, h, desc, code)
    requires IsRecord(h, t) && IsRecord(h, b) && Extends(h.types, t, b) && MostDerived(h, b, name).Some?
    ensures MostDerived(h, t, name).Some? && name in Names(h, Slots(h, b))
    ensures w.vtable(Ptr(desc(t)), SlotOfName(h, b, name)) == Fn(code(MostDerived(h, t, name).value))
  {
    DispatchIsLookup(h, t, b, name);
  }

  lemma CallThrough(ks: Kinds, w: World, recv: Desig, slot: nat, args: seq<Argument>, m: Store, f: Val)
    requires var r := EvalDesig(ks, w, recv, m); w.vtable(LoadVal(r.1, r.0), slot) == f
    ensures var (self, m1) := EvalDesig(ks, w, recv, m);
            var (vs, m2) := EvalArgs(ks, w, args, m1);
            EvalExpr(ks, w, MethodCall(recv, slot, args), m) == CallEffect(w, f, [ByRef(self)] + vs, m2)
  {
  }

  /** A method call on a receiver whose tag is the descriptor of t, through the slot
      the name has in the static type b, calls what t gives the name, with the
      receiver first. */
  lemma CallsMostDerived(ks: Kinds, w: World, h: Decls, desc: TypeId -> Loc, code: ProcId -> nat,
                         recv: Desig, b: TypeId, t: TypeId, name: Name, args: seq<Argument>, m: Store)
    requires DeclsOk(h) && Described(w, h, desc, code)
    requires IsRecord(h, t) && IsRecord(h, b) && Extends(h.types, t, b) && MostDerived(h, b, name).Some?
    requires var r := EvalDesig(ks, w, recv, m); LoadVal(r.1, r.0) == Ptr(desc(t))
    ensures MostDerived(h, t, name).Some? && name in Names(h, Slots(h, b))
    ensures var (self, m1) := EvalDesig(ks, w, recv, m);
            var (vs, m2) := EvalArgs(ks, w, args, m1);
            EvalExpr(ks, w, MethodCall(recv, SlotOfName(h, b, name), args), m)
            == CallEffect(w, Fn(code(MostDerived(h, t, name).value)), [ByRef(self)] + vs, m2)
  {
    SlotHolds(w, h, desc, code, b, t, name);
    CallThrough(ks, w, recv, SlotOfName(h, b, name), args, m, Fn(code(MostDerived(h, t, name).value)));
  }

  /** In a module that ends without an error and has no late base method, what is
      called then has a body, its receiver is t or a record t extends, and it has
      the signature the call was checked against, type by type. */
  lemma AcceptedCall(acts: seq<Act>, s: State, b: TypeId, t: TypeId, name: Name)
    requires StateOk(INIT) && Runs(INIT, acts) == Some(s) && s.errors == [] && Missing(s.h.procs, s.declared) == []
    requires NotLate(INIT, acts) && StateOk(s)
    requires IsRecord(s.h, t) && IsRecord(s.h, b) && Extends(s.h.types, t, b) && MostDerived(s.h, b, name).Some?
    ensures MostDerived(s.h, t, name).Some? && SlotOk(s, t, MostDerived(s.h, t, name).value)
    ensures var (p, q) := (s.h.procs[MostDerived(s.h, b, name).value], s.h.procs[MostDerived(s.h, t, name).value]);
            Spelled(s.h.types, p) == Spelled(s.h.types, q) && LoweredSig(s.h.types, p) == LoweredSig(s.h.types, q)
  {
    AcceptedModule(acts, s, t);
    DispatchIsLookup(s.h, t, b, name);
    OverridesAgree(s, t, b, name);
  }

  // ----- where the tags come from -----

  /** What a procedure starts with. */
  function StartStore(c: Ctx, p: Proc, w: World, m0: Store): Store {
    InitStore(c, p.locals, w, InitStore(c, p.params, w, m0))
  }

  lemma {:induction false} SlotFilled(c: Ctx, ds: seq<Decl>, w: World, s: Store, d: Decl, zero: Val)
    requires KindOf(c.kinds, d) == AggregateLocal(zero)
    requires d in ds || Region(s, SlotLoc(d)) == PartsOf(zero)
    ensures Region(InitStore(c, ds, w, s), SlotLoc(d)) == PartsOf(zero)
    decreases |ds|
  {
    if ds != [] {
      var n := |ds| - 1;
      var s1 := InitStore(c, ds[..n], w, s);
      assert ds == ds[..n] + [ds[n]];
      if ds[n] == d {
        StoreThenLoad(s1, SlotLoc(d), zero);
      } else {
        SlotFilled(c, ds[..n], w, s, d, zero);
        OtherSlot(c, ds[n], w, s1, d);
      }
    }
  }

  lemma OtherSlot(c: Ctx, e: Decl, w: World, s: Store, d: Decl)
    requires e != d
    ensures Region(InitDecl(c, e, w, s), SlotLoc(d)) == Region(s, SlotLoc(d))
  {
    var s1 := InitDecl(c, e, w, s);
    forall k | Within(k, SlotLoc(d)) ensures (k in s1 <==> k in s) && (k in s ==> s1[k] == s[k]) {
      match KindOf(c.kinds, e)
      case AggregateParam => StoredAt(s, SlotLoc(e), Eval(w, map[], Arg(e)), k);
      case AggregateLocal(zero) => StoredAt(s, SlotLoc(e), zero, k);
      case _ =>
    }
    SameRegion(s1, s, SlotLoc(d));
  }

  /** What a component of a local holds at first. */
  lemma StartsAs(c: Ctx, p: Proc, w: World, m0: Store, d: Decl, z: Zero, path: seq<int>)
    requires c.kinds == p.kinds && d in p.locals && KindOf(p.kinds, d) == AggregateLocal(ZeroVal(z)) && !z.Word?
    ensures LoadVal(StartStore(c, p, w, m0), Ptr(Loc(Frame(d), path)))
            == if At(z, path).Some? then At(z, path).value else Undefined
  {
    var s := StartStore(c, p, w, m0);
    SlotFilled(c, p.locals, w, InitStore(c, p.params, w, m0), d, ZeroVal(z));
    ZeroParts(z, path);
    SlotPart(s, d, path);
  }

  lemma SlotPart(s: Store, d: Decl, path: seq<int>)
    ensures var r := Region(s, SlotLoc(d)); Get(s, Loc(Frame(d), path)) == if path in r then r[path] else Undefined
  {
    InRegion(s, SlotLoc(d), path);
    assert SlotLoc(d).path + path == path;
  }

  /** Each record in the local d that needs a tag holds its descriptor. */
  ghost predicate TagsHeld(s: Store, d: Decl, ts: seq<TypeDecl>, t: TypeId, desc: TypeId -> Loc)
    requires TypesOk(ts) && t < |ts|
  {
    forall path {:trigger TaggedAt(ts, t, path)} :: TaggedAt(ts, t, path) ==>
      LoadVal(s, Ptr(Loc(Frame(d), path))) == Ptr(desc(TypeAt(ts, t, path).value))
  }

  /** A local aggregate of type t, initialised by getZeroValue, starts with all its
      tags exactly if t is covered. */
  lemma LocalsTaggedIff(c: Ctx, p: Proc, w: World, m0: Store, d: Decl, ts: seq<TypeDecl>, t: TypeId,
                        desc: TypeId -> Loc)
    requires TypesOk(ts) && t < |ts| && !ts[Underlying(ts, t)].Named?
    requires c.kinds == p.kinds && d in p.locals
    requires KindOf(p.kinds, d) == AggregateLocal(ZeroVal(ZeroValue(ts, t, desc)))
    ensures TagsHeld(StartStore(c, p, w, m0), d, ts, t, desc) <==> Covered(ts, t)
  {
    var z := ZeroValue(ts, t, desc);
    WordsAreScalars(ts, t, desc);
    TagsSetIff(ts, t, desc);
    forall path
      ensures LoadVal(StartStore(c, p, w, m0), Ptr(Loc(Frame(d), path)))
              == if At(z, path).Some? then At(z, path).value else Undefined
    {
      StartsAs(c, p, w, m0, d, z, path);
    }
  }

  /** So a method call on a fresh local of a record type calls the method of that
      type. */
  lemma FreshLocalCalls(c: Ctx, p: Proc, w: World, m0: Store, d: Decl, h: Decls, desc: TypeId -> Loc,
                        code: ProcId -> nat, b: TypeId, t: TypeId, name: Name, args: seq<Argument>)
    requires DeclsOk(h) && Described(w, h, desc, code)
    requires IsRecord(h, t) && h.types[t].tag && IsRecord(h, b) && Extends(h.types, t, b) &&
             MostDerived(h, b, name).Some?
    requires c.kinds == p.kinds && d in p.locals
    requires KindOf(p.kinds, d) == AggregateLocal(ZeroVal(ZeroValue(h.types, t, desc)))
    ensures MostDerived(h, t, name).Some? && name in Names(h, Slots(h, b))
    ensures var s := StartStore(c, p, w, m0);
            var (vs, s1) := EvalArgs(p.kinds, w, args, s);
            EvalExpr(p.kinds, w, MethodCall(Var(d), SlotOfName(h, b, name), args), s)
            == CallEffect(w, Fn(code(MostDerived(h, t, name).value)), [ByRef(Ptr(SlotLoc(d)))] + vs, s1)
  {
    StartsAs(c, p, w, m0, d, ZeroValue(h.types, t, desc), []);
    CallsMostDerived(p.kinds, w, h, desc, code, Var(d), b, t, name, args, StartStore(c, p, w, m0));
  }

  /** It need not be: in any module, A = RECORD END, B = RECORD (A) END and
      C = RECORD f: A END are accepted, and a variable of type C starts with a null
      tag in its component f. */
  lemma HolderStartsUntagged(s: State, name: Name, desc: TypeId -> Loc)
    requires StateOk(s)
    ensures var n := |s.h.types|;
            var acts := [RecordType(None, [], []), RecordType(Some(n), [], [])] +
              [RecordType(None, [FieldDecl(name, n)], [])];
            && Runs(s, acts).Some? && Runs(s, acts).value.errors == s.errors
            && var ts := Runs(s, acts).value.h.types;
               |ts| == n + 3 && TaggedAt(ts, n + 2, [0]) && At(ZeroValue(ts, n + 2, desc), [0]) == Some(Null)
  {
    var n := |s.h.types|;
    var acts, last := [RecordType(None, [], []), RecordType(Some(n), [], [])],
      RecordType(None, [FieldDecl(name, n)], []);
    TwoRecords(s);
    var s1 := Runs(s, acts).value;
    RunsAppend(s, acts, [last]);
    RunsCons(s1, last, []);
    assert [last] + [] == [last];
    Holder(s1, n, name, desc);
  }

  lemma Holder(s: State, n: nat, name: Name, desc: TypeId -> Loc)
    requires StateOk(s) && |s.h.types| == n + 2 && IsTagged(s.h.types, n)
    ensures CanAct(s.h.types, RecordType(None, [FieldDecl(name, n)], []))
    ensures var s1 := Apply(s, RecordType(None, [FieldDecl(name, n)], []));
            && s1.errors == s.errors && |s1.h.types| == n + 3
            && TaggedAt(s1.h.types, n + 2, [0]) && At(ZeroValue(s1.h.types, n + 2, desc), [0]) == Some(Null)
  {
    PlainRecord(s, [FieldDecl(name, n)]);
    var s1 := Apply(s, RecordType(None, [FieldDecl(name, n)], []));
    InsideUntagged(s1.h.types, n, n + 2, name, desc);
  }

  lemma PlainRecord(s: State, fields: seq<FieldDecl>)
    requires StateOk(s) && CanAct(s.h.types, RecordType(None, fields, []))
    ensures Apply(s, RecordType(None, fields, [])) == AddType(s, RecordOf(None, fields, [], false))
  {
    var s2 := AddType(s, RecordOf(None, fields, [], false));
    NewRecordOk(s, None, fields);
    NoConflicts(s2.h.types, fields);
    assert NewRecord(s, None, fields) == s2.(errors := s.errors + [] + Conflicts(s2.h.types, None, fields));
  }

  lemma NoConflicts(ts: seq<TypeDecl>, fields: seq<FieldDecl>)
    requires TypesOk(ts)
    ensures Conflicts(ts, None, fields) == []
  {
  }

  lemma InsideUntagged(ts: seq<TypeDecl>, n: TypeId, t: TypeId, name: Name, desc: TypeId -> Loc)
    requires TypesOk(ts) && n < t < |ts| && IsTagged(ts, n) && ts[t] == RecordOf(None, [FieldDecl(name, n)], [], false)
    ensures TaggedAt(ts, t, [0]) && At(ZeroValue(ts, t, desc), [0]) == Some(Null)
  {
    assert AllFields(ts, t) == OwnFields(ts, t);
    assert FieldTypes(ts, t) == [n] && [0] + [] == [0];
    var cs := AllZero(ts, t).cs;
    assert cs[0] == AllZero(ts, n) && cs[0].tag == Some(Null);
    FieldStep(ts, t, 0, []);
    ComponentAt(None, cs, 0, []);
  }

  // ----- descriptors -----

  /** getTypeDescriptor: a descriptor per type, made on first use. */
  class Descriptors {
    const h: Decls
    var table: map<TypeId, seq<ProcId>>

    ghost predicate Valid()
      reads this
    {
      DeclsOk(h) && forall t :: t in table ==> IsRecord(h, t) && table[t] == Slots(h, t)
    }

    constructor (h: Decls)
      requires DeclsOk(h)
      ensures Valid() && this.h == h && table == map[]
    {
      this.h := h;
      table := map[];
    }

    /** Afterwards t has one, with the implementations of its slots in order; those
        made before stay as they are. */
    method GetTypeDescriptor(t: TypeId) returns (impls: seq<ProcId>)
      requires Valid() && IsRecord(h, t)
      modifies this
      ensures Valid() && t in table && impls == table[t] == Slots(h, t)
      ensures forall u :: u in old(table) ==> u in table && table[u] == old(table)[u]
    {
      if t in table { return table[t]; }
      impls := [];
      var slots := CollectMethodSlots(h, t);
      for i := 0 to |slots|
        invariant Valid() && table == old(table) && t !in table && impls == slots[..i]
      {
        impls := impls + [slots[i]];
      }
      table := table[t := impls];
    }
  }

  /** A world in which descriptors are what the table says is described. */
  lemma TableDescribes(w: World, h: Decls, desc: TypeId -> Loc, code: ProcId -> nat, table: map<TypeId, seq<ProcId>>)
    requires DeclsOk(h) && forall t :: IsRecord(h, t) ==> t in table && table[t] == Slots(h, t)
    requires forall t: TypeId, i: nat {:trigger w.vtable(Ptr(desc(t)), i)} ::
               t in table && i < |table[t]| ==> w.vtable(Ptr(desc(t)), i) == Fn(code(table[t][i]))
    ensures Described(w, h, desc, code)
  {
  }
}
