/** Emitted expressions compute what the reference semantics says, with scalars
    split between block-local values and memory. */
module Expressions {
  import opened Ir
  import opened Source
  import opened Skeleton

  // ----- which bodies have addresses where they need them -----

  predicate HasAddr(c: Ctx, d: Desig)
    decreases d, 1
  {
    match d
    case Var(x) => !IsSsa(c, x)
    case ResultOf(e, _) => Emittable(c, e)
    case Index(base, idx, _) => HasAddr(c, base) && Emittable(c, idx)
    case Field(base, _) => HasAddr(c, base)
  }

  /** What may be passed at a VAR position, assigned to, or sent a method: no result
      of a call as such. */
  predicate Denotes(c: Ctx, d: Desig)
    decreases d, 2
  {
    !d.ResultOf? && HasAddr(c, d)
  }

  /** No address of a scalar without a slot is ever asked for in e. */
  predicate Emittable(c: Ctx, e: Expr)
    decreases e, 1
  {
    match e
    case Lit(_) => true
    case Read(d) => (d.Var? && IsSsa(c, d.decl)) || HasAddr(c, d)
    case Infix(_, l, r) => Emittable(c, l) && Emittable(c, r)
    case Prefix(_, e1) => Emittable(c, e1)
    case ConstAccess(e1) => Emittable(c, e1)
    case FunCall(_, args) => EmittableArgs(c, args)
    case MethodCall(recv, _, args) => Denotes(c, recv) && EmittableArgs(c, args)
    case TypeTest(recv, _) => Denotes(c, recv)
    case WholeOf(d) => HasAddr(c, d)
  }

  predicate EmittableArgs(c: Ctx, args: seq<Argument>)
    decreases args, 0
  {
    args == [] || (EmittableArg(c, args[0]) && EmittableArgs(c, args[1..]))
  }

  predicate EmittableArg(c: Ctx, a: Argument)
    decreases a, 2
  {
    match a
    case ValArg(e) => Emittable(c, e)
    case VarArg(d) => Denotes(c, d)
  }

  // ----- how the split state stands for the store -----

  /** The slots of scalars kept as values, which the emitted code has not. */
  predicate InSsaSlot(c: Ctx, l: Loc) {
    l.root.Frame? && IsSsa(c, l.root.decl)
  }

  /** The same memory, except for such slots. */
  ghost predicate SameMem(c: Ctx, s: Store, m: Store) {
    forall l :: !InSsaSlot(c, l) ==> (l in s <==> l in m) && (l in s ==> s[l] == m[l])
  }

  /** Split state env, out, m stands for store s. */
  ghost predicate Rel(c: Ctx, w: World, s: Store, env: Env, out: map<Decl, Value>, m: Store) {
    && SameMem(c, s, m)
    && (forall d :: IsSsa(c, d) ==> Eval(w, env, Current(out, d)) == Get(s, SlotLoc(d)))
    && (forall d :: IsAggregate(c.kinds, d) ==> Eval(w, env, Current(out, d)) == Ptr(SlotLoc(d)))
  }

  /** VAR parameters are bound to addresses outside the frame. */
  ghost predicate WorldOk(ks: Kinds, w: World) {
    forall d :: KindOf(ks, d).VarParam? ==> d in w.args && w.args[d].Ptr? && w.args[d].loc.root.Ext?
  }

  predicate Scoped(b: Block, n: nat, v: Value) {
    !v.PhiRef? && (v.Reg? ==> v.block == b && v.index < n)
  }

  ghost predicate ScopedOut(b: Block, blk: VBlock) {
    forall d :: d in blk.out ==> Scoped(b, |blk.code|, blk.out[d])
  }

  predicate Grown(blk: VBlock, blk1: VBlock) {
    blk.code <= blk1.code && blk1.out == blk.out && blk1.term == blk.term
  }

  function After(w: World, b: Block, blk: VBlock, env0: Env, m0: Store): (Env, Store) {
    ExecCode(w, blk.code, b, env0, m0)
  }

  /** Having run the block so far, the state stands for store s. */
  ghost predicate At(c: Ctx, w: World, b: Block, blk: VBlock, env0: Env, m0: Store, s: Store) {
    && ScopedOut(b, blk)
    && var (env, m) := After(w, b, blk, env0, m0);
       Rel(c, w, s, env, blk.out, m)
  }

  /** Values computed earlier keep their values as code is appended. */
  lemma {:induction false} Stable(w: World, b: Block, code: seq<Instr<Value>>, code1: seq<Instr<Value>>,
                                  env0: Env, m0: Store, v: Value)
    requires code <= code1 && Scoped(b, |code|, v)
    ensures Eval(w, ExecCode(w, code1, b, env0, m0).0, v) == Eval(w, ExecCode(w, code, b, env0, m0).0, v)
    decreases |code1|
  {
    if |code1| > |code| {
      Stable(w, b, code, code1[..|code1| - 1], env0, m0, v);
    } else {
      assert code1 == code;
    }
  }

  /** s1 differs from s at no slot of a scalar kept as a value. */
  ghost predicate SlotsKept(c: Ctx, s: Store, s1: Store) {
    forall d :: IsSsa(c, d) ==> Get(s1, SlotLoc(d)) == Get(s, SlotLoc(d))
  }

  /** One more instruction: its register, and what it does to memory. */
  lemma PushEffect(w: World, b: Block, blk: VBlock, i: Instr<Value>, env0: Env, m0: Store)
    ensures var (env, m) := After(w, b, blk, env0, m0);
            var (x, m1) := Perform(w, EvalInstr(w, env, i), m);
            After(w, b, Push(b, blk, i).0, env0, m0) == (env[Reg(b, |blk.code|) := x], m1)
  {
    var code := Push(b, blk, i).0.code;
    assert code[..|code| - 1] == blk.code && code[|code| - 1] == i;
  }

  lemma RelKept(c: Ctx, w: World, s: Store, s1: Store, env: Env, env1: Env, out: map<Decl, Value>, m: Store, m1: Store)
    requires Rel(c, w, s, env, out, m) && SameMem(c, s1, m1) && SlotsKept(c, s, s1)
    requires forall d :: Eval(w, env1, Current(out, d)) == Eval(w, env, Current(out, d))
    ensures Rel(c, w, s1, env1, out, m1)
  {
  }

  /** A new register is nobody's value yet. */
  lemma RegisterIsNew(w: World, b: Block, blk: VBlock, env: Env, x: Val, d: Decl)
    requires ScopedOut(b, blk)
    ensures Eval(w, env[Reg(b, |blk.code|) := x], Current(blk.out, d)) == Eval(w, env, Current(blk.out, d))
  {
    assert Current(blk.out, d) != Reg(b, |blk.code|);
  }

  /** Appending one instruction that takes the memory to what s1 says. */
  lemma PushSim(c: Ctx, w: World, b: Block, blk: VBlock, i: Instr<Value>, env0: Env, m0: Store, s: Store, s1: Store,
                x: Val)
    requires At(c, w, b, blk, env0, m0, s)
    requires var (env, m) := After(w, b, blk, env0, m0);
             var (y, m1) := Perform(w, EvalInstr(w, env, i), m);
             y == x && SameMem(c, s1, m1)
    requires SlotsKept(c, s, s1)
    ensures var (blk1, v) := Push(b, blk, i);
            At(c, w, b, blk1, env0, m0, s1) && Eval(w, After(w, b, blk1, env0, m0).0, v) == x
            && Grown(blk, blk1) && Scoped(b, |blk1.code|, v)
  {
    var (env, m) := After(w, b, blk, env0, m0);
    var m1 := Perform(w, EvalInstr(w, env, i), m).1;
    var env1 := env[Reg(b, |blk.code|) := x];
    PushEffect(w, b, blk, i, env0, m0);
    forall d ensures Eval(w, env1, Current(blk.out, d)) == Eval(w, env, Current(blk.out, d)) {
      RegisterIsNew(w, b, blk, env, x, d);
    }
    RelKept(c, w, s, s1, env, env1, blk.out, m, m1);
  }

  /** An address that is not the slot of a scalar kept as a value. */
  predicate SafeAddr(c: Ctx, x: Val) { x.Ptr? ==> !InSsaSlot(c, x.loc) }

  ghost predicate SafeArgs(c: Ctx, args: seq<Actual<Val>>) {
    forall i :: 0 <= i < |args| && args[i].ByRef? ==> SafeAddr(c, args[i].v)
  }

  /** A call does the same to both and leaves the values alone. */
  lemma CallSim(c: Ctx, w: World, f: Val, args: seq<Actual<Val>>, s: Store, m: Store)
    requires SameMem(c, s, m) && SafeArgs(c, args)
    ensures CallEffect(w, f, args, s).0 == CallEffect(w, f, args, m).0
    ensures SameMem(c, CallEffect(w, f, args, s).1, CallEffect(w, f, args, m).1)
    ensures SlotsKept(c, s, CallEffect(w, f, args, s).1)
  {
    assert forall l :: Visible(args, l) ==> !InSsaSlot(c, l);
    assert VisiblePart(args, s) == VisiblePart(args, m);
  }

  // ----- expressions -----

  /** Emission went from blk to r.0 with result r.1; the store semantics gave x. */
  ghost predicate Computes(c: Ctx, w: World, b: Block, blk: VBlock, env0: Env, m0: Store,
                           r: (VBlock, Value), x: (Val, Store)) {
    && Grown(blk, r.0) && Scoped(b, |r.0.code|, r.1)
    && At(c, w, b, r.0, env0, m0, x.1)
    && Eval(w, After(w, b, r.0, env0, m0).0, r.1) == x.0
  }

  lemma Kept(w: World, b: Block, blk: VBlock, blk1: VBlock, env0: Env, m0: Store, v: Value)
    requires Grown(blk, blk1) && Scoped(b, |blk.code|, v)
    ensures Eval(w, After(w, b, blk1, env0, m0).0, v) == Eval(w, After(w, b, blk, env0, m0).0, v)
    ensures Scoped(b, |blk1.code|, v)
  {
    Stable(w, b, blk.code, blk1.code, env0, m0, v);
  }

  /** An instruction that leaves memory alone. */
  lemma PushPure(c: Ctx, w: World, b: Block, blk: VBlock, i: Instr<Value>, env0: Env, m0: Store, s: Store)
    requires At(c, w, b, blk, env0, m0, s) && !i.StoreTo? && !i.StoreAll? && !i.CopyAll? && !i.Call?
    ensures var (env, m) := After(w, b, blk, env0, m0);
            Computes(c, w, b, blk, env0, m0, Push(b, blk, i), (Perform(w, EvalInstr(w, env, i), m).0, s))
  {
    var (env, m) := After(w, b, blk, env0, m0);
    PushSim(c, w, b, blk, i, env0, m0, s, s, Perform(w, EvalInstr(w, env, i), m).0);
  }

  lemma {:induction false} ExprSim(c: Ctx, w: World, e: Expr, b: Block, blk: VBlock, env0: Env, m0: Store, s: Store)
    requires WorldOk(c.kinds, w) && Emittable(c, e) && At(c, w, b, blk, env0, m0, s)
    ensures Computes(c, w, b, blk, env0, m0, EmitExpr(c, e, b, blk), EvalExpr(c.kinds, w, e, s))
    decreases e, 1
  {
    match e
    case Lit(v) =>
    case Read(d) =>
      if d.Var? && IsSsa(c, d.decl) {
        assert Rel(c, w, s, After(w, b, blk, env0, m0).0, blk.out, After(w, b, blk, env0, m0).1);
      } else {
        LoadSim(c, w, d, b, blk, env0, m0, s);
      }
    case Infix(op, l, r) =>
      InfixSim(c, w, op, l, r, b, blk, env0, m0, s);
    case Prefix(op, e1) =>
      PrefixSim(c, w, op, e1, b, blk, env0, m0, s);
    case ConstAccess(e1) =>
      ExprSim(c, w, e1, b, blk, env0, m0, s);
    case FunCall(f, args) =>
      FunSim(c, w, f, args, b, blk, env0, m0, s);
    case MethodCall(recv, slot, args) =>
      MethodSim(c, w, recv, slot, args, b, blk, env0, m0, s);
    case TypeTest(recv, desc) =>
      TypeTestSim(c, w, recv, desc, b, blk, env0, m0, s);
    case WholeOf(d) =>
      WholeSim(c, w, d, b, blk, env0, m0, s);
  }

  // ----- aggregates -----

  lemma LoadAllSame(c: Ctx, a: Val, s: Store, m: Store)
    requires SameMem(c, s, m) && SafeAddr(c, a)
    ensures LoadAllVal(s, a) == LoadAllVal(m, a)
  {
    if a.Ptr? {
      SameRegion(s, m, a.loc);
    }
  }

  lemma StoreAllSame(c: Ctx, a: Val, v: Val, s: Store, m: Store)
    requires SameMem(c, s, m) && SafeAddr(c, a)
    ensures SameMem(c, StoreAllVal(s, a, v), StoreAllVal(m, a, v)) && SlotsKept(c, s, StoreAllVal(s, a, v))
  {
    if a.Ptr? {
      StoreAllSameAt(c, a.loc, v, s, m);
      forall d | IsSsa(c, d) ensures Get(StoreAllVal(s, a, v), SlotLoc(d)) == Get(s, SlotLoc(d)) {
        StoredAt(s, a.loc, v, SlotLoc(d));
      }
    }
  }

  lemma StoreAllSameAt(c: Ctx, a: Loc, v: Val, s: Store, m: Store)
    requires SameMem(c, s, m)
    ensures SameMem(c, StoreAllVal(s, Ptr(a), v), StoreAllVal(m, Ptr(a), v))
  {
    forall l | !InSsaSlot(c, l)
      ensures l in StoreAllVal(s, Ptr(a), v) <==> l in StoreAllVal(m, Ptr(a), v)
      ensures l in StoreAllVal(s, Ptr(a), v) ==> StoreAllVal(s, Ptr(a), v)[l] == StoreAllVal(m, Ptr(a), v)[l]
    {
      StoredAt(s, a, v, l);
      StoredAt(m, a, v, l);
    }
  }

  /** The result of a call, put into its slot. */
  lemma StoreAllInto(c: Ctx, w: World, n: nat, v: Value, b: Block, blk: VBlock, blk1: VBlock, env0: Env, m0: Store,
                     s: Store, y: Val)
    requires Grown(blk, blk1) && At(c, w, b, blk1, env0, m0, s) && Eval(w, After(w, b, blk1, env0, m0).0, v) == y
    ensures Computes(c, w, b, blk, env0, m0, (Push(b, blk1, StoreAll(TempAddr(n), v)).0, TempAddr(n)),
                     (Ptr(TempLoc(n)), StoreAllVal(s, Ptr(TempLoc(n)), y)))
  {
    var (env, m) := After(w, b, blk1, env0, m0);
    var s1 := StoreAllVal(s, Ptr(TempLoc(n)), y);
    StoreAllSame(c, Ptr(TempLoc(n)), y, s, m);
    StorePerforms(w, env, TempLoc(n), v, m, y);
    PushSim(c, w, b, blk1, StoreAll(TempAddr(n), v), env0, m0, s, s1, Undefined);
  }

  lemma StorePerforms(w: World, env: Env, l: Loc, v: Value, m: Store, y: Val)
    requires Eval(w, env, v) == y
    ensures Perform(w, EvalInstr(w, env, StoreAll(Const(Ptr(l)), v)), m) == (Undefined, StoreAllVal(m, Ptr(l), y))
  {
  }

  /** What an aggregate holds is loaded from its address. */
  lemma WholeSim(c: Ctx, w: World, d: Desig, b: Block, blk: VBlock, env0: Env, m0: Store, s: Store)
    requires WorldOk(c.kinds, w) && HasAddr(c, d) && At(c, w, b, blk, env0, m0, s)
    ensures var (blk1, a) := EmitAddr(c, d, b, blk);
            var (x, s1) := EvalDesig(c.kinds, w, d, s);
            Computes(c, w, b, blk, env0, m0, Push(b, blk1, LoadAll(a)), (LoadAllVal(s1, x), s1))
    decreases d, 2
  {
    AddrSim(c, w, d, b, blk, env0, m0, s);
    var (blk1, a) := EmitAddr(c, d, b, blk);
    var (x, s1) := EvalDesig(c.kinds, w, d, s);
    LoadAllSame(c, x, s1, After(w, b, blk1, env0, m0).1);
    LoadAllSim(c, w, a, b, blk, blk1, env0, m0, s1, LoadAllVal(s1, x));
  }

  lemma LoadAllSim(c: Ctx, w: World, a: Value, b: Block, blk: VBlock, blk1: VBlock, env0: Env, m0: Store, s: Store,
                   v: Val)
    requires Grown(blk, blk1) && At(c, w, b, blk1, env0, m0, s)
    requires var (env, m) := After(w, b, blk1, env0, m0); LoadAllVal(m, Eval(w, env, a)) == v
    ensures Computes(c, w, b, blk, env0, m0, Push(b, blk1, LoadAll(a)), (v, s))
  {
    var (env, m) := After(w, b, blk1, env0, m0);
    assert Perform(w, EvalInstr(w, env, LoadAll(a)), m) == (v, m);
    PushPure(c, w, b, blk1, LoadAll(a), env0, m0, s);
  }

  /** An assignment of aggregates: the copy in memory. */
  lemma CopySim(c: Ctx, w: World, t: Desig, d: Desig, b: Block, blk: VBlock, env0: Env, m0: Store, s: Store)
    requires WorldOk(c.kinds, w) && HasAddr(c, t) && HasAddr(c, d) && At(c, w, b, blk, env0, m0, s)
    ensures At(c, w, b, EmitCopy(c, t, d, b, blk), env0, m0, ExecCopy(c.kinds, w, t, d, s))
  {
    AddrSim(c, w, t, b, blk, env0, m0, s);
    var (blk1, a) := EmitAddr(c, t, b, blk);
    var (y, s1) := EvalDesig(c.kinds, w, t, s);
    AddrSim(c, w, d, b, blk1, env0, m0, s1);
    var (blk2, v) := EmitAddr(c, d, b, blk1);
    var (z, s2) := EvalDesig(c.kinds, w, d, s1);
    Kept(w, b, blk1, blk2, env0, m0, a);
    LoadAllSame(c, z, s2, After(w, b, blk2, env0, m0).1);
    CopyInto(c, w, a, v, b, blk2, env0, m0, s2, y, LoadAllVal(s2, z));
  }

  lemma CopyInto(c: Ctx, w: World, to: Value, from: Value, b: Block, blk: VBlock, env0: Env, m0: Store, s: Store,
                 y: Val, z: Val)
    requires At(c, w, b, blk, env0, m0, s) && SafeAddr(c, y)
    requires var (env, m) := After(w, b, blk, env0, m0); Eval(w, env, to) == y && LoadAllVal(m, Eval(w, env, from)) == z
    ensures At(c, w, b, Push(b, blk, CopyAll(to, from)).0, env0, m0, StoreAllVal(s, y, z))
  {
    var (env, m) := After(w, b, blk, env0, m0);
    StoreAllSame(c, y, z, s, m);
    CopyPerforms(w, env, to, from, m, y, z);
    PushSim(c, w, b, blk, CopyAll(to, from), env0, m0, s, StoreAllVal(s, y, z), Undefined);
  }

  lemma CopyPerforms(w: World, env: Env, to: Value, from: Value, m: Store, y: Val, z: Val)
    requires Eval(w, env, to) == y && LoadAllVal(m, Eval(w, env, from)) == z
    ensures Perform(w, EvalInstr(w, env, CopyAll(to, from)), m) == (Undefined, StoreAllVal(m, y, z))
  {
  }

  // ----- calls, operators and addresses -----

  lemma LoadSim(c: Ctx, w: World, d: Desig, b: Block, blk: VBlock, env0: Env, m0: Store, s: Store)
    requires WorldOk(c.kinds, w) && HasAddr(c, d) && At(c, w, b, blk, env0, m0, s)
    ensures var (blk1, a) := EmitAddr(c, d, b, blk);
            var (x, s1) := EvalDesig(c.kinds, w, d, s);
            Computes(c, w, b, blk, env0, m0, Push(b, blk1, Load(a)), (LoadVal(s1, x), s1))
    decreases d, 2
  {
    AddrSim(c, w, d, b, blk, env0, m0, s);
    var (blk1, a) := EmitAddr(c, d, b, blk);
    var (x, s1) := EvalDesig(c.kinds, w, d, s);
    PushPure(c, w, b, blk1, Load(a), env0, m0, s1);
    LoadSame(c, x, s1, After(w, b, blk1, env0, m0).1);
  }

  lemma PrefixSim(c: Ctx, w: World, op: PrefixOp, e: Expr, b: Block, blk: VBlock, env0: Env, m0: Store, s: Store)
    requires WorldOk(c.kinds, w) && Emittable(c, e) && At(c, w, b, blk, env0, m0, s)
    ensures Computes(c, w, b, blk, env0, m0, EmitExpr(c, Prefix(op, e), b, blk), EvalExpr(c.kinds, w, Prefix(op, e), s))
    decreases Prefix(op, e), 0
  {
    ExprSim(c, w, e, b, blk, env0, m0, s);
    var (blk1, x) := EmitExpr(c, e, b, blk);
    var s1 := EvalExpr(c.kinds, w, e, s).1;
    match op
    case Plus =>
    case Minus => UnSim(c, w, Neg, x, b, blk, blk1, env0, m0, s1);
    case LogicalNot => UnSim(c, w, Not, x, b, blk, blk1, env0, m0, s1);
  }

  lemma UnSim(c: Ctx, w: World, op: UnOp, x: Value, b: Block, blk: VBlock, blk1: VBlock, env0: Env, m0: Store, s: Store)
    requires Grown(blk, blk1) && At(c, w, b, blk1, env0, m0, s)
    ensures var env := After(w, b, blk1, env0, m0).0;
            Computes(c, w, b, blk, env0, m0, Push(b, blk1, Un(op, x)), (w.unary(op, Eval(w, env, x)), s))
  {
    PushPure(c, w, b, blk1, Un(op, x), env0, m0, s);
  }

  lemma FunSim(c: Ctx, w: World, f: nat, args: seq<Argument>, b: Block, blk: VBlock, env0: Env, m0: Store, s: Store)
    requires WorldOk(c.kinds, w) && EmittableArgs(c, args) && At(c, w, b, blk, env0, m0, s)
    ensures Computes(c, w, b, blk, env0, m0, EmitExpr(c, FunCall(f, args), b, blk),
                     EvalExpr(c.kinds, w, FunCall(f, args), s))
    decreases FunCall(f, args), 0
  {
    ArgsSim(c, w, args, b, blk, env0, m0, s);
    var (blk1, xs) := EmitArgs(c, args, b, blk);
    var (vs, s1) := EvalArgs(c.kinds, w, args, s);
    PushCall(c, w, b, blk1, Const(Fn(f)), xs, env0, m0, s1, Fn(f), vs);
  }

  lemma LoadSame(c: Ctx, a: Val, s: Store, m: Store)
    requires SameMem(c, s, m) && SafeAddr(c, a)
    ensures LoadVal(s, a) == LoadVal(m, a)
  {
  }

  lemma InfixSim(c: Ctx, w: World, op: BinOp, l: Expr, r: Expr, b: Block, blk: VBlock, env0: Env, m0: Store, s: Store)
    requires WorldOk(c.kinds, w) && Emittable(c, l) && Emittable(c, r) && At(c, w, b, blk, env0, m0, s)
    ensures var (blk1, x) := EmitExpr(c, l, b, blk);
            var (blk2, y) := EmitExpr(c, r, b, blk1);
            var (m, s1) := EvalExpr(c.kinds, w, l, s);
            var (n, s2) := EvalExpr(c.kinds, w, r, s1);
            Computes(c, w, b, blk, env0, m0, Push(b, blk2, Bin(op, x, y)), (w.arith(op, m, n), s2))
    decreases Infix(op, l, r), 0
  {
    ExprSim(c, w, l, b, blk, env0, m0, s);
    var (blk1, x) := EmitExpr(c, l, b, blk);
    var s1 := EvalExpr(c.kinds, w, l, s).1;
    ExprSim(c, w, r, b, blk1, env0, m0, s1);
    var (blk2, y) := EmitExpr(c, r, b, blk1);
    var s2 := EvalExpr(c.kinds, w, r, s1).1;
    Kept(w, b, blk1, blk2, env0, m0, x);
    BinSim(c, w, op, x, y, b, blk, blk2, env0, m0, s2);
  }

  lemma BinSim(c: Ctx, w: World, op: BinOp, x: Value, y: Value, b: Block, blk: VBlock, blk1: VBlock, env0: Env,
               m0: Store, s: Store)
    requires Grown(blk, blk1) && At(c, w, b, blk1, env0, m0, s)
    ensures var env := After(w, b, blk1, env0, m0).0;
            Computes(c, w, b, blk, env0, m0, Push(b, blk1, Bin(op, x, y)),
                     (w.arith(op, Eval(w, env, x), Eval(w, env, y)), s))
  {
    PushPure(c, w, b, blk1, Bin(op, x, y), env0, m0, s);
  }

  lemma TypeTestSim(c: Ctx, w: World, recv: Desig, desc: Loc, b: Block, blk: VBlock, env0: Env, m0: Store, s: Store)
    requires WorldOk(c.kinds, w) && HasAddr(c, recv) && At(c, w, b, blk, env0, m0, s)
    ensures var (blk1, a) := EmitAddr(c, recv, b, blk);
            var (blk2, tag) := Push(b, blk1, Load(a));
            var (x, s1) := EvalDesig(c.kinds, w, recv, s);
            Computes(c, w, b, blk, env0, m0, Push(b, blk2, Bin(Eq, tag, Const(Ptr(desc)))),
                     (w.arith(Eq, LoadVal(s1, x), Ptr(desc)), s1))
    decreases TypeTest(recv, desc), 0
  {
    LoadSim(c, w, recv, b, blk, env0, m0, s);
    var (blk1, a) := EmitAddr(c, recv, b, blk);
    var (blk2, tag) := Push(b, blk1, Load(a));
    BinSim(c, w, Eq, tag, Const(Ptr(desc)), b, blk, blk2, env0, m0, EvalDesig(c.kinds, w, recv, s).1);
  }

  /** The receiver's address, its type tag, and the method the tag selects. */
  lemma DispatchSim(c: Ctx, w: World, recv: Desig, slot: nat, b: Block, blk: VBlock, env0: Env, m0: Store, s: Store)
    requires WorldOk(c.kinds, w) && HasAddr(c, recv) && At(c, w, b, blk, env0, m0, s)
    ensures var (blk1, self) := EmitAddr(c, recv, b, blk);
            var (blk2, tag) := Push(b, blk1, Load(self));
            var r := Push(b, blk2, SlotOf(tag, slot));
            var (x, s1) := EvalDesig(c.kinds, w, recv, s);
            && Computes(c, w, b, blk, env0, m0, r, (w.vtable(LoadVal(s1, x), slot), s1))
            && Scoped(b, |r.0.code|, self) && SafeAddr(c, x)
            && Eval(w, After(w, b, r.0, env0, m0).0, self) == x
    decreases recv, 3
  {
    AddrSim(c, w, recv, b, blk, env0, m0, s);
    LoadSim(c, w, recv, b, blk, env0, m0, s);
    var (blk1, self) := EmitAddr(c, recv, b, blk);
    var s1 := EvalDesig(c.kinds, w, recv, s).1;
    var (blk2, tag) := Push(b, blk1, Load(self));
    SlotSim(c, w, tag, slot, b, blk, blk2, env0, m0, s1);
    Kept(w, b, blk1, Push(b, blk2, SlotOf(tag, slot)).0, env0, m0, self);
  }

  lemma SlotSim(c: Ctx, w: World, tag: Value, slot: nat, b: Block, blk: VBlock, blk1: VBlock, env0: Env, m0: Store,
                s: Store)
    requires Grown(blk, blk1) && At(c, w, b, blk1, env0, m0, s)
    ensures Computes(c, w, b, blk, env0, m0, Push(b, blk1, SlotOf(tag, slot)),
                     (w.vtable(Eval(w, After(w, b, blk1, env0, m0).0, tag), slot), s))
  {
    PushPure(c, w, b, blk1, SlotOf(tag, slot), env0, m0, s);
  }

  lemma MethodSim(c: Ctx, w: World, recv: Desig, slot: nat, args: seq<Argument>, b: Block, blk: VBlock,
                  env0: Env, m0: Store, s: Store)
    requires WorldOk(c.kinds, w) && HasAddr(c, recv) && EmittableArgs(c, args) && At(c, w, b, blk, env0, m0, s)
    ensures var (blk1, self) := EmitAddr(c, recv, b, blk);
            var (blk2, tag) := Push(b, blk1, Load(self));
            var (blk3, f) := Push(b, blk2, SlotOf(tag, slot));
            var (blk4, xs) := EmitArgs(c, args, b, blk3);
            var (x, s1) := EvalDesig(c.kinds, w, recv, s);
            var (vs, s2) := EvalArgs(c.kinds, w, args, s1);
            Computes(c, w, b, blk, env0, m0, Push(b, blk4, Call(f, [ByRef(self)] + xs)),
                     CallEffect(w, w.vtable(LoadVal(s1, x), slot), [ByRef(x)] + vs, s2))
    decreases MethodCall(recv, slot, args), 0
  {
    DispatchSim(c, w, recv, slot, b, blk, env0, m0, s);
    var (blk1, self) := EmitAddr(c, recv, b, blk);
    var (blk2, tag) := Push(b, blk1, Load(self));
    var (blk3, f) := Push(b, blk2, SlotOf(tag, slot));
    var (x, s1) := EvalDesig(c.kinds, w, recv, s);
    InvokeSim(c, w, self, x, f, w.vtable(LoadVal(s1, x), slot), args, b, blk3, env0, m0, s1);
  }

  /** Evaluating the arguments and calling, the receiver and method being known. */
  lemma InvokeSim(c: Ctx, w: World, self: Value, x: Val, f: Value, fx: Val, args: seq<Argument>, b: Block, blk: VBlock,
                  env0: Env, m0: Store, s: Store)
    requires WorldOk(c.kinds, w) && EmittableArgs(c, args) && At(c, w, b, blk, env0, m0, s) && SafeAddr(c, x)
    requires Scoped(b, |blk.code|, self) && Scoped(b, |blk.code|, f)
    requires Eval(w, After(w, b, blk, env0, m0).0, self) == x && Eval(w, After(w, b, blk, env0, m0).0, f) == fx
    ensures var (blk1, xs) := EmitArgs(c, args, b, blk);
            var (vs, s1) := EvalArgs(c.kinds, w, args, s);
            Computes(c, w, b, blk, env0, m0, Push(b, blk1, Call(f, [ByRef(self)] + xs)),
                     CallEffect(w, fx, [ByRef(x)] + vs, s1))
    decreases args, 1
  {
    ArgsSim(c, w, args, b, blk, env0, m0, s);
    var (blk1, xs) := EmitArgs(c, args, b, blk);
    var (vs, s1) := EvalArgs(c.kinds, w, args, s);
    Kept(w, b, blk, blk1, env0, m0, self);
    Kept(w, b, blk, blk1, env0, m0, f);
    ConsActual(w, After(w, b, blk1, env0, m0).0, ByRef(self), xs, ByRef(x), vs);
    PushCall(c, w, b, blk1, f, [ByRef(self)] + xs, env0, m0, s1, fx, [ByRef(x)] + vs);
  }

  lemma ConsActual(w: World, env: Env, a: Actual<Value>, xs: seq<Actual<Value>>, v: Actual<Val>, vs: seq<Actual<Val>>)
    requires EvalActual(w, env, a) == v && EvalActuals(w, env, xs) == vs
    ensures EvalActuals(w, env, [a] + xs) == [v] + vs
  {
  }

  lemma PushCall(c: Ctx, w: World, b: Block, blk: VBlock, f: Value, xs: seq<Actual<Value>>, env0: Env, m0: Store,
                 s: Store, fx: Val, vs: seq<Actual<Val>>)
    requires At(c, w, b, blk, env0, m0, s) && SafeArgs(c, vs)
    requires Eval(w, After(w, b, blk, env0, m0).0, f) == fx
    requires EvalActuals(w, After(w, b, blk, env0, m0).0, xs) == vs
    ensures Computes(c, w, b, blk, env0, m0, Push(b, blk, Call(f, xs)), CallEffect(w, fx, vs, s))
  {
    var m := After(w, b, blk, env0, m0).1;
    CallSim(c, w, fx, vs, s, m);
    var r := CallEffect(w, fx, vs, s);
    PushSim(c, w, b, blk, Call(f, xs), env0, m0, s, r.1, r.0);
  }

  lemma {:induction false} AddrSim(c: Ctx, w: World, d: Desig, b: Block, blk: VBlock, env0: Env, m0: Store, s: Store)
    requires WorldOk(c.kinds, w) && HasAddr(c, d) && At(c, w, b, blk, env0, m0, s)
    ensures Computes(c, w, b, blk, env0, m0, EmitAddr(c, d, b, blk), EvalDesig(c.kinds, w, d, s))
    ensures SafeAddr(c, EvalDesig(c.kinds, w, d, s).0)
    decreases d, 1
  {
    match d
    case ResultOf(e, n) =>
      ResultSim(c, w, e, n, b, blk, env0, m0, s);
    case Var(x) =>
      assert Rel(c, w, s, After(w, b, blk, env0, m0).0, blk.out, After(w, b, blk, env0, m0).1);
    case Index(base, idx, low) =>
      IndexSim(c, w, base, idx, low, b, blk, env0, m0, s);
    case Field(base, n) =>
      FieldSim(c, w, base, n, b, blk, env0, m0, s);
  }

  lemma ResultSim(c: Ctx, w: World, e: Expr, n: nat, b: Block, blk: VBlock, env0: Env, m0: Store, s: Store)
    requires WorldOk(c.kinds, w) && Emittable(c, e) && At(c, w, b, blk, env0, m0, s)
    ensures var (blk1, v) := EmitExpr(c, e, b, blk);
            var (y, s1) := EvalExpr(c.kinds, w, e, s);
            Computes(c, w, b, blk, env0, m0, (Push(b, blk1, StoreAll(TempAddr(n), v)).0, TempAddr(n)),
                     (Ptr(TempLoc(n)), StoreAllVal(s1, Ptr(TempLoc(n)), y)))
    decreases ResultOf(e, n), 0
  {
    ExprSim(c, w, e, b, blk, env0, m0, s);
    var (blk1, v) := EmitExpr(c, e, b, blk);
    var (y, s1) := EvalExpr(c.kinds, w, e, s);
    StoreAllInto(c, w, n, v, b, blk, blk1, env0, m0, s1, y);
  }

  lemma FieldSim(c: Ctx, w: World, base: Desig, n: nat, b: Block, blk: VBlock, env0: Env, m0: Store, s: Store)
    requires WorldOk(c.kinds, w) && HasAddr(c, base) && At(c, w, b, blk, env0, m0, s)
    ensures var (blk1, a) := EmitAddr(c, base, b, blk);
            var (x, s1) := EvalDesig(c.kinds, w, base, s);
            Computes(c, w, b, blk, env0, m0, Push(b, blk1, Gep(a, Const(Int(n)))), (Component(x, Int(n)), s1))
            && SafeAddr(c, x)
    decreases Field(base, n), 0
  {
    AddrSim(c, w, base, b, blk, env0, m0, s);
    var (blk1, a) := EmitAddr(c, base, b, blk);
    PushPure(c, w, b, blk1, Gep(a, Const(Int(n))), env0, m0, EvalDesig(c.kinds, w, base, s).1);
  }

  lemma IndexSim(c: Ctx, w: World, base: Desig, idx: Expr, low: int, b: Block, blk: VBlock, env0: Env, m0: Store,
                 s: Store)
    requires WorldOk(c.kinds, w) && HasAddr(c, base) && Emittable(c, idx) && At(c, w, b, blk, env0, m0, s)
    ensures var (blk1, a) := EmitAddr(c, base, b, blk);
            var (blk2, i) := EmitExpr(c, idx, b, blk1);
            var (blk3, j) := Push(b, blk2, Bin(WrapSub, i, Const(Int(low))));
            var (x, s1) := EvalDesig(c.kinds, w, base, s);
            var (n, s2) := EvalExpr(c.kinds, w, idx, s1);
            Computes(c, w, b, blk, env0, m0, Push(b, blk3, Gep(a, j)),
                     (Component(x, w.arith(WrapSub, n, Int(low))), s2))
            && SafeAddr(c, x)
    decreases Index(base, idx, low), 0
  {
    AddrSim(c, w, base, b, blk, env0, m0, s);
    var (blk1, a) := EmitAddr(c, base, b, blk);
    var s1 := EvalDesig(c.kinds, w, base, s).1;
    ExprSim(c, w, idx, b, blk1, env0, m0, s1);
    var (blk2, i) := EmitExpr(c, idx, b, blk1);
    var s2 := EvalExpr(c.kinds, w, idx, s1).1;
    Kept(w, b, blk1, blk2, env0, m0, a);
    ElementSim(c, w, a, i, low, b, blk, blk2, env0, m0, s2);
  }

  /** The index less the lower bound, and the element it selects. */
  lemma ElementSim(c: Ctx, w: World, a: Value, i: Value, low: int, b: Block, blk: VBlock, blk1: VBlock, env0: Env,
                   m0: Store, s: Store)
    requires Grown(blk, blk1) && At(c, w, b, blk1, env0, m0, s) && Scoped(b, |blk1.code|, a)
    ensures var env := After(w, b, blk1, env0, m0).0;
            var (blk2, j) := Push(b, blk1, Bin(WrapSub, i, Const(Int(low))));
            Computes(c, w, b, blk, env0, m0, Push(b, blk2, Gep(a, j)),
                     (Component(Eval(w, env, a), w.arith(WrapSub, Eval(w, env, i), Int(low))), s))
  {
    BinSim(c, w, WrapSub, i, Const(Int(low)), b, blk1, blk1, env0, m0, s);
    var (blk2, j) := Push(b, blk1, Bin(WrapSub, i, Const(Int(low))));
    Kept(w, b, blk1, blk2, env0, m0, a);
    PushPure(c, w, b, blk2, Gep(a, j), env0, m0, s);
  }

  ghost predicate ScopedArgs(b: Block, n: nat, xs: seq<Actual<Value>>) {
    forall i :: 0 <= i < |xs| ==> Scoped(b, n, xs[i].v)
  }

  lemma {:induction false} ArgsSim(c: Ctx, w: World, args: seq<Argument>, b: Block, blk: VBlock, env0: Env, m0: Store,
                                   s: Store)
    requires WorldOk(c.kinds, w) && EmittableArgs(c, args) && At(c, w, b, blk, env0, m0, s)
    ensures var (blk1, xs) := EmitArgs(c, args, b, blk);
            var (vs, s1) := EvalArgs(c.kinds, w, args, s);
            && Grown(blk, blk1) && ScopedArgs(b, |blk1.code|, xs)
            && At(c, w, b, blk1, env0, m0, s1)
            && EvalActuals(w, After(w, b, blk1, env0, m0).0, xs) == vs
            && SafeArgs(c, vs)
    decreases args, 0
  {
    if args != [] {
      ArgSim(c, w, args[0], b, blk, env0, m0, s);
      var (blk1, x) := EmitArg(c, args[0], b, blk);
      var (v, s1) := EvalArg(c.kinds, w, args[0], s);
      ArgsSim(c, w, args[1..], b, blk1, env0, m0, s1);
      var (blk2, xs) := EmitArgs(c, args[1..], b, blk1);
      var (vs, s2) := EvalArgs(c.kinds, w, args[1..], s1);
      Kept(w, b, blk1, blk2, env0, m0, x.v);
      ConsActual(w, After(w, b, blk2, env0, m0).0, x, xs, v, vs);
    }
  }

  lemma ArgSim(c: Ctx, w: World, a: Argument, b: Block, blk: VBlock, env0: Env, m0: Store, s: Store)
    requires WorldOk(c.kinds, w) && EmittableArg(c, a) && At(c, w, b, blk, env0, m0, s)
    ensures var (blk1, x) := EmitArg(c, a, b, blk);
            var (v, s1) := EvalArg(c.kinds, w, a, s);
            && Grown(blk, blk1) && Scoped(b, |blk1.code|, x.v)
            && At(c, w, b, blk1, env0, m0, s1)
            && EvalActual(w, After(w, b, blk1, env0, m0).0, x) == v
            && SafeArgs(c, [v])
    decreases a, 2
  {
    match a
    case ValArg(e) => ExprSim(c, w, e, b, blk, env0, m0, s);
    case VarArg(d) => AddrSim(c, w, d, b, blk, env0, m0, s);
  }

  /** An assignment, to a value or to memory. */
  lemma AssignSim(c: Ctx, w: World, t: Desig, e: Expr, b: Block, blk: VBlock, env0: Env, m0: Store, s: Store)
    requires WorldOk(c.kinds, w) && Emittable(c, e) && At(c, w, b, blk, env0, m0, s)
    requires (t.Var? && IsSsa(c, t.decl)) || HasAddr(c, t)
    ensures At(c, w, b, EmitAssign(c, t, e, b, blk), env0, m0, ExecAssign(c.kinds, w, t, e, s))
    ensures EmitAssign(c, t, e, b, blk).term == blk.term
  {
    ExprSim(c, w, e, b, blk, env0, m0, s);
    var (blk1, v) := EmitExpr(c, e, b, blk);
    var (x, s1) := EvalExpr(c.kinds, w, e, s);
    if t.Var? && IsSsa(c, t.decl) {
      SetSim(c, w, t.decl, v, b, blk1, env0, m0, s1, x);
    } else {
      AddrSim(c, w, t, b, blk1, env0, m0, s1);
      var (blk2, a) := EmitAddr(c, t, b, blk1);
      var (y, s2) := EvalDesig(c.kinds, w, t, s1);
      Kept(w, b, blk1, blk2, env0, m0, v);
      StoreInto(c, w, a, v, b, blk2, env0, m0, s2, y, x);
    }
  }

  lemma StoreInto(c: Ctx, w: World, to: Value, v: Value, b: Block, blk: VBlock, env0: Env, m0: Store, s: Store, y: Val,
                  x: Val)
    requires At(c, w, b, blk, env0, m0, s) && SafeAddr(c, y)
    requires var env := After(w, b, blk, env0, m0).0; Eval(w, env, to) == y && Eval(w, env, v) == x
    ensures At(c, w, b, Push(b, blk, StoreTo(to, v)).0, env0, m0, StoreVal(s, y, x))
  {
    var (env, m) := After(w, b, blk, env0, m0);
    assert Perform(w, EvalInstr(w, env, StoreTo(to, v)), m) == (Undefined, StoreVal(m, y, x));
    PushSim(c, w, b, blk, StoreTo(to, v), env0, m0, s, StoreVal(s, y, x), Undefined);
  }

  lemma SetSim(c: Ctx, w: World, d: Decl, v: Value, b: Block, blk: VBlock, env0: Env, m0: Store, s: Store, x: Val)
    requires At(c, w, b, blk, env0, m0, s) && IsSsa(c, d) && Scoped(b, |blk.code|, v)
    requires Eval(w, After(w, b, blk, env0, m0).0, v) == x
    ensures At(c, w, b, blk.(out := blk.out[d := v]), env0, m0, StoreVal(s, Ptr(SlotLoc(d)), x))
  {
    var (env, m) := After(w, b, blk, env0, m0);
    SetRel(c, w, s, env, blk.out, m, d, v, x);
  }

  lemma SetRel(c: Ctx, w: World, s: Store, env: Env, out: map<Decl, Value>, m: Store, d: Decl, v: Value, x: Val)
    requires Rel(c, w, s, env, out, m) && IsSsa(c, d) && Eval(w, env, v) == x
    ensures Rel(c, w, s[SlotLoc(d) := x], env, out[d := v], m)
  {
  }
}
