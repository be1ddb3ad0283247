/** The part of LLVM's IR that the code generator uses: run-time values, memory,
    instructions over operands of any kind, and what one instruction does.
    Source semantics, emitter and both machines share these definitions. */
module Ir {
  type Block = nat
  type Decl = nat

  /** A storage root: the slot of a declaration of the running procedure, the slot
      for an aggregate returned by the call at a place of its text, or anything
      outside the frame (globals and whatever VAR arguments denote). */
  datatype Root = Frame(decl: Decl) | Temp(place: nat) | Ext(id: nat)

  /** An address: a root and the element/field indices applied to it. */
  datatype Loc = Loc(root: Root, path: seq<int>)

  /** Run-time values. An aggregate is what its components hold, by path. Undefined
      stands for LLVM's undef and poison. */
  datatype Val =
    | Int(n: int)
    | Bool(b: bool)
    | Real(r: real)
    | Ptr(loc: Loc)
    | Null
    | Fn(id: nat)
    | Agg(parts: map<seq<int>, Val>)
    | Undefined

  type Store = map<Loc, Val>

  datatype BinOp = Add | Sub | WrapSub | Mul | Div | Mod | Eq | Ne | Lt | Le | Gt | Ge | And | Or
  datatype UnOp = Neg | Not

  /** The variable `decl` in block `block`; names the one phi ever created for it. */
  datatype Key = Key(block: Block, decl: Decl)

  /** Operands. Entry(d), the value of d on entry to the block, occurs only in
      the variable-level graph; PhiRef occurs only in SSA code. */
  datatype Value =
    | Const(c: Val)
    | Arg(decl: Decl)
    | Reg(block: Block, index: nat)
    | PhiRef(key: Key)
    | Entry(decl: Decl)

  datatype Actual<V> = ByVal(v: V) | ByRef(v: V)

  datatype Instr<V> =
    | Bin(op: BinOp, l: V, r: V)
    | Un(uop: UnOp, v: V)
    | Load(a: V)
    | StoreTo(a: V, v: V)
    | LoadAll(a: V)           // a load of aggregate type
    | StoreAll(a: V, v: V)    // a store of aggregate type
    | CopyAll(to: V, from: V) // llvm.memcpy
    | Gep(a: V, i: V)
    | SlotOf(a: V, slot: nat)
    | Call(f: V, args: seq<Actual<V>>)

  datatype Term<V> = Open | Br(to: Block) | CondBr(c: V, yes: Block, no: Block) | Ret(v: V) | RetVoid

  /** What the procedure is run with: its arguments, what the operators compute
      (wrap-around, poison on overflow and truncating division included), the type
      descriptors in memory, and the behaviour of everything it may call. */
  datatype World = World(
    args: map<Decl, Val>,
    arith: (BinOp, Val, Val) -> Val,
    unary: (UnOp, Val) -> Val,
    vtable: (Val, nat) -> Val,
    callee: (Val, seq<Actual<Val>>, Store) -> (Val, Store))

  function Get(m: Store, l: Loc): Val {
    if l in m then m[l] else Undefined
  }

  function LoadVal(m: Store, a: Val): Val {
    if a.Ptr? then Get(m, a.loc) else Undefined
  }

  function StoreVal(m: Store, a: Val, v: Val): Store {
    if a.Ptr? then m[a.loc := v] else m
  }

  // ----- aggregates in memory -----

  /** l lies in the aggregate at base. */
  predicate Within(l: Loc, base: Loc) { l.root == base.root && base.path <= l.path }

  lemma WithinIs(l: Loc, base: Loc)
    requires Within(l, base)
    ensures l == Loc(base.root, base.path + l.path[|base.path|..])
  {
    assert l.path == base.path + l.path[|base.path|..];
  }

  lemma SuffixIs(p: seq<int>, q: seq<int>)
    ensures (p + q)[|p|..] == q && p <= p + q
  {
  }

  lemma PathsDiffer(base: Loc)
    ensures forall k, l ::
              Within(k, base) && Within(l, base) && k.path[|base.path|..] == l.path[|base.path|..] ==> k == l
    ensures forall p: seq<int>, q: seq<int> :: base.path + p == base.path + q ==> p == q
  {
    forall k, l | Within(k, base) && Within(l, base) && k.path[|base.path|..] == l.path[|base.path|..] ensures k == l {
      WithinIs(k, base);
      WithinIs(l, base);
    }
    forall p: seq<int>, q: seq<int> | base.path + p == base.path + q ensures p == q {
      SuffixIs(base.path, p);
      SuffixIs(base.path, q);
    }
  }

  /** What the components of the aggregate at l hold. */
  function Region(m: Store, l: Loc): map<seq<int>, Val> {
    PathsDiffer(l);
    map k | k in m && Within(k, l) :: k.path[|l.path|..] := m[k]
  }

  /** The same components, at l. */
  function Placed(l: Loc, parts: map<seq<int>, Val>): Store {
    PathsDiffer(l);
    map p | p in parts :: Loc(l.root, l.path + p) := parts[p]
  }

  function PartsOf(v: Val): map<seq<int>, Val> { if v.Agg? then v.parts else map[] }

  function LoadAllVal(m: Store, a: Val): Val {
    Agg(if a.Ptr? then Region(m, a.loc) else map[])
  }

  function StoreAllVal(m: Store, a: Val, v: Val): Store {
    if a.Ptr? then (map k | k in m && !Within(k, a.loc) :: m[k]) + Placed(a.loc, PartsOf(v)) else m
  }

  lemma InPlaced(l: Loc, parts: map<seq<int>, Val>, k: Loc)
    ensures k in Placed(l, parts) <==> Within(k, l) && k.path[|l.path|..] in parts
    ensures k in Placed(l, parts) ==> Placed(l, parts)[k] == parts[k.path[|l.path|..]]
  {
    if k in Placed(l, parts) {
      var p :| p in parts && k == Loc(l.root, l.path + p);
      SuffixIs(l.path, p);
    }
    if Within(k, l) { WithinIs(k, l); }
  }

  lemma StoredAt(m: Store, l: Loc, v: Val, k: Loc)
    ensures var m1, parts := StoreAllVal(m, Ptr(l), v), PartsOf(v);
            && (k in m1 <==> if Within(k, l) then k.path[|l.path|..] in parts else k in m)
            && (k in m1 ==> m1[k] == if Within(k, l) then parts[k.path[|l.path|..]] else m[k])
  {
    InPlaced(l, PartsOf(v), k);
  }

  lemma InRegion(m: Store, l: Loc, p: seq<int>)
    ensures var k := Loc(l.root, l.path + p);
            (p in Region(m, l) <==> k in m) && (k in m ==> Region(m, l)[p] == m[k])
  {
    var k := Loc(l.root, l.path + p);
    SuffixIs(l.path, p);
    PathsDiffer(l);
    assert Within(k, l) && k.path[|l.path|..] == p;
  }

  /** Memory that agrees on a region has the same aggregate there. */
  lemma SameRegion(s: Store, m: Store, l: Loc)
    requires forall k :: Within(k, l) ==> (k in s <==> k in m) && (k in s ==> s[k] == m[k])
    ensures Region(s, l) == Region(m, l)
  {
    var r, q := Region(s, l), Region(m, l);
    forall p: seq<int> ensures (p in r <==> p in q) && (p in r ==> r[p] == q[p]) {
      SuffixIs(l.path, p);
      assert Within(Loc(l.root, l.path + p), l);
      InRegion(s, l, p);
      InRegion(m, l, p);
    }
  }

  /** What is stored as a whole is loaded as a whole, and nothing else changes. */
  lemma StoreThenLoad(m: Store, l: Loc, v: Val)
    ensures LoadAllVal(StoreAllVal(m, Ptr(l), v), Ptr(l)) == Agg(PartsOf(v))
    ensures forall k :: !Within(k, l) ==>
            (k in StoreAllVal(m, Ptr(l), v) <==> k in m) && (k in m ==> StoreAllVal(m, Ptr(l), v)[k] == m[k])
  {
    var m1, parts := StoreAllVal(m, Ptr(l), v), PartsOf(v);
    var r := Region(m1, l);
    forall p: seq<int> ensures (p in r <==> p in parts) && (p in r ==> r[p] == parts[p]) {
      InRegion(m1, l, p);
      SuffixIs(l.path, p);
      StoredAt(m, l, v, Loc(l.root, l.path + p));
    }
    assert r == parts;
    forall k | !Within(k, l) ensures (k in m1 <==> k in m) && (k in m ==> m1[k] == m[k]) { StoredAt(m, l, v, k); }
  }

  /** The address of component i of the aggregate at a. */
  function Component(a: Val, i: Val): Val {
    if a.Ptr? && i.Int? then Ptr(Loc(a.loc.root, a.loc.path + [i.n])) else Undefined
  }

  /** The memory a callee may read and write: everything outside the caller's
      frame, and what the arguments passed at VAR positions contain. */
  predicate Visible(args: seq<Actual<Val>>, l: Loc) {
    l.root.Ext? ||
    exists i :: 0 <= i < |args| && args[i].ByRef? && args[i].v.Ptr?
                && args[i].v.loc.root == l.root && args[i].v.loc.path <= l.path
  }

  function VisiblePart(args: seq<Actual<Val>>, m: Store): Store {
    map l | l in m && Visible(args, l) :: m[l]
  }

  function HiddenPart(args: seq<Actual<Val>>, m: Store): Store {
    map l | l in m && !Visible(args, l) :: m[l]
  }

  function CallEffect(w: World, f: Val, args: seq<Actual<Val>>, m: Store): (Val, Store) {
    var r := w.callee(f, args, VisiblePart(args, m));
    (r.0, HiddenPart(args, m) + VisiblePart(args, r.1))
  }

  /** What one instruction does once its operands are values. */
  function Perform(w: World, i: Instr<Val>, m: Store): (Val, Store) {
    match i
    case Bin(op, l, r) => (w.arith(op, l, r), m)
    case Un(op, v) => (w.unary(op, v), m)
    case Load(a) => (LoadVal(m, a), m)
    case StoreTo(a, v) => (Undefined, StoreVal(m, a, v))
    case LoadAll(a) => (LoadAllVal(m, a), m)
    case StoreAll(a, v) => (Undefined, StoreAllVal(m, a, v))
    case CopyAll(to, from) => (Undefined, StoreAllVal(m, to, LoadAllVal(m, from)))
    case Gep(a, x) => (Component(a, x), m)
    case SlotOf(a, k) => (w.vtable(a, k), m)
    case Call(f, args) => CallEffect(w, f, args, m)
  }

  // ----- operands at run time -----

  type Env = map<Value, Val>

  function Eval(w: World, env: Env, v: Value): Val {
    match v
    case Const(c) => c
    case Arg(d) => if d in w.args then w.args[d] else Undefined
    case _ => if v in env then env[v] else Undefined
  }

  function EvalActual(w: World, env: Env, a: Actual<Value>): Actual<Val> {
    match a
    case ByVal(v) => ByVal(Eval(w, env, v))
    case ByRef(v) => ByRef(Eval(w, env, v))
  }

  function EvalActuals(w: World, env: Env, args: seq<Actual<Value>>): (r: seq<Actual<Val>>)
    ensures |r| == |args|
    ensures forall j :: 0 <= j < |r| ==> r[j] == EvalActual(w, env, args[j])
  {
    seq(|args|, j requires 0 <= j < |args| => EvalActual(w, env, args[j]))
  }

  function EvalInstr(w: World, env: Env, i: Instr<Value>): Instr<Val> {
    match i
    case Bin(op, l, r) => Bin(op, Eval(w, env, l), Eval(w, env, r))
    case Un(op, v) => Un(op, Eval(w, env, v))
    case Load(a) => Load(Eval(w, env, a))
    case StoreTo(a, v) => StoreTo(Eval(w, env, a), Eval(w, env, v))
    case LoadAll(a) => LoadAll(Eval(w, env, a))
    case StoreAll(a, v) => StoreAll(Eval(w, env, a), Eval(w, env, v))
    case CopyAll(to, from) => CopyAll(Eval(w, env, to), Eval(w, env, from))
    case Gep(a, x) => Gep(Eval(w, env, a), Eval(w, env, x))
    case SlotOf(a, k) => SlotOf(Eval(w, env, a), k)
    case Call(f, args) => Call(Eval(w, env, f), EvalActuals(w, env, args))
  }

  /** Runs straight-line code of block b; instruction k defines Reg(b, k). */
  function ExecCode(w: World, code: seq<Instr<Value>>, b: Block, env: Env, m: Store): (Env, Store) {
    if code == [] then (env, m)
    else
      var n := |code| - 1;
      var (env1, m1) := ExecCode(w, code[..n], b, env, m);
      var (x, m2) := Perform(w, EvalInstr(w, env1, code[n]), m1);
      (env1[Reg(b, n) := x], m2)
  }

  /** How a run ends. */
  datatype Outcome =
    | Returned(v: Val, m: Store)
    | ReturnedVoid(m: Store)
    | Stuck          // a branch on an undefined value, or falling into an open block
    | OutOfFuel
}
