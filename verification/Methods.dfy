/** Method tables: flattening, lookup, slots, and why calling through a slot
    calls the method of the dynamic type. */
module Methods {
  import opened Source
  import opened Types

  /** A procedure; params are its parameters but the receiver. A prototype is
      declared in a record body, its definition is what implements it. */
  datatype ProcDecl = ProcDecl(name: Name, receiver: Option<TypeId>, params: seq<TypeId>, ret: Option<TypeId>,
                               prototype: bool, definition: Option<ProcId>)

  datatype Decls = Decls(types: seq<TypeDecl>, procs: seq<ProcDecl>)

  predicate ProcsIn(h: Decls, ms: seq<ProcId>) {
    forall i :: 0 <= i < |ms| ==> ms[i] < |h.procs|
  }

  function NameOf(h: Decls, m: ProcId): Name
    requires m < |h.procs|
  {
    h.procs[m].name
  }

  function Names(h: Decls, ms: seq<ProcId>): (r: seq<Name>)
    requires ProcsIn(h, ms)
    ensures |r| == |ms| && forall i :: 0 <= i < |r| ==> r[i] == NameOf(h, ms[i])
  {
    seq(|ms|, i requires 0 <= i < |ms| => NameOf(h, ms[i]))
  }

  predicate Distinct<T(==)>(s: seq<T>) {
    forall i, j :: 0 <= i < j < |s| ==> s[i] != s[j]
  }

  ghost predicate DeclsOk(h: Decls) {
    && TypesOk(h.types)
    && (forall t {:trigger h.types[t]} ::
        0 <= t < |h.types| && h.types[t].RecordOf? ==> MethodsOk(h, h.types[t].methods))
    && (forall m {:trigger h.procs[m]} :: 0 <= m < |h.procs| ==> DefinitionOk(h, h.procs[m]))
  }

  predicate MethodsOk(h: Decls, ms: seq<ProcId>) { ProcsIn(h, ms) && Distinct(Names(h, ms)) }

  predicate DefinitionOk(h: Decls, p: ProcDecl) {
    p.definition.Some? ==> p.definition.value < |h.procs| && NameOf(h, p.definition.value) == p.name
  }

  predicate IsRecord(h: Decls, t: TypeId) { t < |h.types| && h.types[t].RecordOf? }

  /** A method declared in the record body stands for its implementation. */
  function Impl(h: Decls, m: ProcId): (r: ProcId)
    requires DeclsOk(h) && m < |h.procs|
    ensures r < |h.procs| && NameOf(h, r) == NameOf(h, m)
  {
    if h.procs[m].prototype && h.procs[m].definition.Some? then h.procs[m].definition.value else m
  }

  // ----- collectMethodSlots -----

  /** m in the slot of its name, or in a new one. */
  function Put(h: Decls, slots: seq<ProcId>, m: ProcId): (r: seq<ProcId>)
    requires ProcsIn(h, slots) && m < |h.procs|
    ensures ProcsIn(h, r)
  {
    if NameOf(h, m) in Names(h, slots) then slots[IndexIn(Names(h, slots), NameOf(h, m)) := m] else slots + [m]
  }

  function PutAll(h: Decls, slots: seq<ProcId>, ms: seq<ProcId>): (r: seq<ProcId>)
    requires DeclsOk(h) && ProcsIn(h, slots) && ProcsIn(h, ms)
    ensures ProcsIn(h, r)
    decreases |ms|
  {
    if ms == [] then slots else Put(h, PutAll(h, slots, ms[..|ms| - 1]), Impl(h, ms[|ms| - 1]))
  }

  function Slots(h: Decls, t: TypeId): (r: seq<ProcId>)
    requires DeclsOk(h) && IsRecord(h, t)
    ensures ProcsIn(h, r)
    decreases t
  {
    var rec := h.types[t];
    PutAll(h, if Base(h.types, t).Some? then Slots(h, Base(h.types, t).value) else [], rec.methods)
  }

  method CollectMethodSlots(h: Decls, t: TypeId) returns (slots: seq<ProcId>)
    requires DeclsOk(h) && IsRecord(h, t)
    ensures slots == Slots(h, t)
    decreases t
  {
    var rec := h.types[t];
    slots := [];
    if Base(h.types, t).Some? {
      slots := CollectMethodSlots(h, Base(h.types, t).value);
    }
    ghost var inherited := slots;
    for i := 0 to |rec.methods|
      invariant ProcsIn(h, slots) && ProcsIn(h, rec.methods[..i]) && slots == PutAll(h, inherited, rec.methods[..i])
    {
      assert rec.methods[..i + 1][..i] == rec.methods[..i];
      slots := PutSlot(h, slots, Impl(h, rec.methods[i]));
    }
    assert rec.methods[..|rec.methods|] == rec.methods;
  }

  /** Puts one method into its slot. */
  method PutSlot(h: Decls, slots: seq<ProcId>, m: ProcId) returns (r: seq<ProcId>)
    requires ProcsIn(h, slots) && m < |h.procs|
    ensures r == Put(h, slots, m)
  {
    var j := SearchName(h, slots, NameOf(h, m));
    r := if j < |slots| then slots[j := m] else slots + [m];
  }

  /** The search for the first method of a name; the length of ms if there is none. */
  method SearchName(h: Decls, ms: seq<ProcId>, name: Name) returns (i: nat)
    requires ProcsIn(h, ms)
    ensures if name in Names(h, ms) then i == IndexIn(Names(h, ms), name) else i == |ms|
  {
    ghost var names := Names(h, ms);
    i := 0;
    while i < |ms|
      invariant i <= |ms| && forall k :: 0 <= k < i ==> names[k] != name
    {
      if NameOf(h, ms[i]) == name {
        FirstIs(names, i, name);
        return;
      }
      i := i + 1;
    }
  }

  /** The slots that are there keep their place and their name. */
  ghost predicate Keeps(h: Decls, a: seq<ProcId>, b: seq<ProcId>) {
    ProcsIn(h, a) && ProcsIn(h, b) && Names(h, a) <= Names(h, b) && Distinct(Names(h, b))
  }

  lemma {:induction false} PutAllKeeps(h: Decls, slots: seq<ProcId>, ms: seq<ProcId>)
    requires DeclsOk(h) && ProcsIn(h, slots) && ProcsIn(h, ms) && Distinct(Names(h, slots))
    ensures Keeps(h, slots, PutAll(h, slots, ms))
    decreases |ms|
  {
    if ms != [] {
      PutAllKeeps(h, slots, ms[..|ms| - 1]);
    }
  }

  /** Slot names of a record are distinct. */
  lemma {:induction false} SlotsDistinct(h: Decls, t: TypeId)
    requires DeclsOk(h) && IsRecord(h, t)
    ensures Distinct(Names(h, Slots(h, t)))
    decreases t
  {
    var rec := h.types[t];
    if Base(h.types, t).Some? { SlotsDistinct(h, Base(h.types, t).value); }
    PutAllKeeps(h, if Base(h.types, t).Some? then Slots(h, Base(h.types, t).value) else [], rec.methods);
  }

  /** The slot names of a base are a prefix of those of its extensions. */
  lemma {:induction false} ExtensionKeepsSlots(h: Decls, t: TypeId, b: TypeId)
    requires DeclsOk(h) && IsRecord(h, t) && IsRecord(h, b) && Extends(h.types, t, b)
    ensures Keeps(h, Slots(h, b), Slots(h, t))
    decreases t
  {
    SlotsDistinct(h, t);
    if t != b {
      var s := Base(h.types, t).value;
      ExtensionKeepsSlots(h, s, b);
      PutAllKeeps(h, Slots(h, s), h.types[t].methods);
    }
  }

  // ----- the method a name stands for -----

  /** The record's own method of that name. */
  function OwnImpl(h: Decls, t: TypeId, name: Name): (r: Option<ProcId>)
    requires DeclsOk(h) && IsRecord(h, t)
    ensures r.Some? ==> r.value < |h.procs| && NameOf(h, r.value) == name
  {
    var ms := h.types[t].methods;
    if name in Names(h, ms) then Some(Impl(h, ms[IndexIn(Names(h, ms), name)])) else None
  }

  /** The nearest declaration on the chain of base types. */
  function MostDerived(h: Decls, t: TypeId, name: Name): (r: Option<ProcId>)
    requires DeclsOk(h) && IsRecord(h, t)
    ensures r.Some? ==> r.value < |h.procs| && NameOf(h, r.value) == name
    decreases t
  {
    var rec := h.types[t];
    if OwnImpl(h, t, name).Some? then OwnImpl(h, t, name)
    else if Base(h.types, t).Some? then MostDerived(h, Base(h.types, t).value, name)
    else None
  }

  /** What is stored under a name. */
  function Find(h: Decls, slots: seq<ProcId>, name: Name): Option<ProcId>
    requires ProcsIn(h, slots)
  {
    if name in Names(h, slots) then Some(slots[IndexIn(Names(h, slots), name)]) else None
  }

  lemma PutFinds(h: Decls, slots: seq<ProcId>, m: ProcId, name: Name)
    requires ProcsIn(h, slots) && m < |h.procs| && Distinct(Names(h, slots))
    ensures Find(h, Put(h, slots, m), name) == if NameOf(h, m) == name then Some(m) else Find(h, slots, name)
  {
    var r := Put(h, slots, m);
    if NameOf(h, m) in Names(h, slots) {
      assert Names(h, r) == Names(h, slots);
    } else {
      assert Names(h, r) == Names(h, slots) + [NameOf(h, m)];
      if name in Names(h, slots) {
        var i := IndexIn(Names(h, slots), name);
        assert Names(h, r)[i] == name;
      } else if NameOf(h, m) == name {
        assert Names(h, r)[|slots|] == name;
      }
    }
  }

  /** Of the methods put in last, the one with the name, if there is one. */
  lemma {:induction false} PutAllFinds(h: Decls, slots: seq<ProcId>, ms: seq<ProcId>, name: Name)
    requires DeclsOk(h) && ProcsIn(h, slots) && ProcsIn(h, ms) && Distinct(Names(h, slots)) && Distinct(Names(h, ms))
    ensures Find(h, PutAll(h, slots, ms), name) ==
            if name in Names(h, ms) then Some(Impl(h, ms[IndexIn(Names(h, ms), name)])) else Find(h, slots, name)
    decreases |ms|
  {
    if ms != [] {
      var n := |ms| - 1;
      var rest := ms[..n];
      assert Names(h, ms) == Names(h, rest) + [NameOf(h, ms[n])];
      DistinctPrefix(Names(h, rest), NameOf(h, ms[n]));
      PutAllFinds(h, slots, rest, name);
      PutAllKeeps(h, slots, rest);
      PutFinds(h, PutAll(h, slots, rest), Impl(h, ms[n]), name);
      if name in Names(h, ms) { IndexInSnoc(Names(h, rest), NameOf(h, ms[n]), name); }
    }
  }

  lemma DistinctPrefix<T>(s: seq<T>, y: T)
    requires Distinct(s + [y])
    ensures Distinct(s) && y !in s
  {
    forall i | 0 <= i < |s| ensures s[i] != y {
      assert (s + [y])[i] == s[i] && (s + [y])[|s|] == y;
    }
    forall i, j | 0 <= i < j < |s| ensures s[i] != s[j] {
      assert (s + [y])[i] == s[i] && (s + [y])[j] == s[j];
    }
  }

  lemma IndexInSnoc<T>(s: seq<T>, y: T, x: T)
    requires x in s + [y]
    ensures IndexIn(s + [y], x) == if x in s then IndexIn(s, x) else |s|
  {
    var all := s + [y];
    var i := IndexIn(all, x);
    assert i < |s| ==> s[i] == all[i];
    if x in s { assert all[IndexIn(s, x)] == x; }
  }

  /** The flattened table holds the most derived method of every name. */
  lemma {:induction false} TableFindsMostDerived(h: Decls, t: TypeId, name: Name)
    requires DeclsOk(h) && IsRecord(h, t)
    ensures Find(h, Slots(h, t), name) == MostDerived(h, t, name)
    decreases t
  {
    var rec := h.types[t];
    if Base(h.types, t).Some? {
      TableFindsMostDerived(h, Base(h.types, t).value, name);
      SlotsDistinct(h, Base(h.types, t).value);
    }
    PutAllFinds(h, if Base(h.types, t).Some? then Slots(h, Base(h.types, t).value) else [], rec.methods, name);
  }

  method LookupMethod(h: Decls, t: TypeId, name: Name) returns (r: Option<ProcId>)
    requires DeclsOk(h) && IsRecord(h, t)
    ensures r == MostDerived(h, t, name)
  {
    TableFindsMostDerived(h, t, name);
    var slots := CollectMethodSlots(h, t);
    var i := SearchName(h, slots, name);
    r := if i < |slots| then Some(slots[i]) else None;
  }

  /** The slot of a name. */
  function SlotOfName(h: Decls, t: TypeId, name: Name): nat
    requires DeclsOk(h) && IsRecord(h, t) && name in Names(h, Slots(h, t))
  {
    IndexIn(Names(h, Slots(h, t)), name)
  }

  method GetMethodSlot(h: Decls, t: TypeId, name: Name) returns (index: nat)
    requires DeclsOk(h) && IsRecord(h, t) && MostDerived(h, t, name).Some?
    ensures name in Names(h, Slots(h, t)) && index == SlotOfName(h, t, name)
  {
    TableFindsMostDerived(h, t, name);
    var slots := CollectMethodSlots(h, t);
    index := SearchName(h, slots, name);
  }

  /** Calling through the descriptor of the dynamic type t at the slot the name
      has in the static type b calls the method t itself gives the name. */
  lemma DispatchIsLookup(h: Decls, t: TypeId, b: TypeId, name: Name)
    requires DeclsOk(h) && IsRecord(h, t) && IsRecord(h, b) && Extends(h.types, t, b) && MostDerived(h, b, name).Some?
    ensures name in Names(h, Slots(h, b)) && SlotOfName(h, b, name) < |Slots(h, t)|
    ensures MostDerived(h, t, name) == Some(Slots(h, t)[SlotOfName(h, b, name)])
  {
    TableFindsMostDerived(h, b, name);
    TableFindsMostDerived(h, t, name);
    ExtensionKeepsSlots(h, t, b);
    var i := SlotOfName(h, b, name);
    assert Names(h, Slots(h, b))[i] == name;
    DistinctIndex(Names(h, Slots(h, t)), i);
  }

  lemma DistinctIndex<T>(s: seq<T>, i: nat)
    requires Distinct(s) && i < |s|
    ensures s[i] in s && IndexIn(s, s[i]) == i
  {
  }
}
