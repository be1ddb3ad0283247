/** What the emitter builds, seen before SSA: a control-flow graph whose code
    reads variables as Entry(d) and whose blocks say which variables they leave
    with a new value. The emitter class is specified by these functions. */
module Skeleton {
  import opened Ir
  import opened Source
  import opened Machines

  datatype VBlock = VBlock(code: seq<Instr<Value>>, out: map<Decl, Value>, term: Term<Value>)

  datatype Skel = Skel(blocks: seq<VBlock>, curr: Block)

  /** Declarations, and the scalars among them that live in a stack slot. */
  datatype Ctx = Ctx(kinds: Kinds, promoted: set<Decl>)

  const FRESH: VBlock := VBlock([], map[], Open)

  /** A scalar kept as an SSA value. */
  predicate IsSsa(c: Ctx, d: Decl) {
    IsScalar(c.kinds, d) && d !in c.promoted
  }

  function SlotAddr(d: Decl): Value { Const(Ptr(SlotLoc(d))) }
  function TempAddr(n: nat): Value { Const(Ptr(TempLoc(n))) }

  /** The value of d at this point of a block that has set the variables in out. */
  function Current(out: map<Decl, Value>, d: Decl): Value {
    if d in out then out[d] else Entry(d)
  }

  /** Appends an instruction; the result is its register. */
  function Push(b: Block, blk: VBlock, i: Instr<Value>): (VBlock, Value) {
    (blk.(code := blk.code + [i]), Reg(b, |blk.code|))
  }

  function EmitPrefix(op: PrefixOp, v: Value, b: Block, blk: VBlock): (VBlock, Value) {
    match op
    case Plus => (blk, v)
    case Minus => Push(b, blk, Un(Neg, v))
    case LogicalNot => Push(b, blk, Un(Not, v))
  }

  function EmitExpr(c: Ctx, e: Expr, b: Block, blk: VBlock): (VBlock, Value)
    decreases e, 1
  {
    match e
    case Lit(v) => (blk, Const(v))
    case Read(d) =>
      if d.Var? && IsSsa(c, d.decl) then (blk, Current(blk.out, d.decl))
      else
        var (blk1, a) := EmitAddr(c, d, b, blk);
        Push(b, blk1, Load(a))
    case Infix(op, l, r) =>
      var (blk1, x) := EmitExpr(c, l, b, blk);
      var (blk2, y) := EmitExpr(c, r, b, blk1);
      Push(b, blk2, Bin(op, x, y))
    case Prefix(op, e1) =>
      var (blk1, x) := EmitExpr(c, e1, b, blk);
      EmitPrefix(op, x, b, blk1)
    case ConstAccess(e1) => EmitExpr(c, e1, b, blk)
    case FunCall(f, args) =>
      var (blk1, xs) := EmitArgs(c, args, b, blk);
      Push(b, blk1, Call(Const(Fn(f)), xs))
    case MethodCall(recv, slot, args) =>
      var (blk1, self) := EmitAddr(c, recv, b, blk);
      var (blk2, tag) := Push(b, blk1, Load(self));
      var (blk3, f) := Push(b, blk2, SlotOf(tag, slot));
      var (blk4, xs) := EmitArgs(c, args, b, blk3);
      Push(b, blk4, Call(f, [ByRef(self)] + xs))
    case TypeTest(recv, desc) =>
      var (blk1, self) := EmitAddr(c, recv, b, blk);
      var (blk2, tag) := Push(b, blk1, Load(self));
      Push(b, blk2, Bin(Eq, tag, Const(Ptr(desc))))
    case WholeOf(d) =>
      var (blk1, a) := EmitAddr(c, d, b, blk);
      Push(b, blk1, LoadAll(a))
  }

  /** Addresses. A scalar without a slot has none: the emitter gives up there,
      and the result stands for no address. */
  function EmitAddr(c: Ctx, d: Desig, b: Block, blk: VBlock): (VBlock, Value)
    decreases d, 1
  {
    match d
    case Var(x) =>
      (blk,
       match KindOf(c.kinds, x)
       case VarParam => Arg(x)
       case Global => Const(Ptr(Loc(Ext(x), [])))
       case AggregateLocal(_) => Current(blk.out, x)
       case AggregateParam => Current(blk.out, x)
       case _ => if x in c.promoted then SlotAddr(x) else Const(Undefined))
    case ResultOf(e, n) =>
      var (blk1, v) := EmitExpr(c, e, b, blk);
      (Push(b, blk1, StoreAll(TempAddr(n), v)).0, TempAddr(n))
    case Index(base, idx, low) =>
      var (blk1, a) := EmitAddr(c, base, b, blk);
      var (blk2, i) := EmitExpr(c, idx, b, blk1);
      var (blk3, j) := Push(b, blk2, Bin(WrapSub, i, Const(Int(low))));
      Push(b, blk3, Gep(a, j))
    case Field(base, n) =>
      var (blk1, a) := EmitAddr(c, base, b, blk);
      Push(b, blk1, Gep(a, Const(Int(n))))
  }

  function EmitArgs(c: Ctx, args: seq<Argument>, b: Block, blk: VBlock): (VBlock, seq<Actual<Value>>)
    decreases args, 0
  {
    if args == [] then (blk, [])
    else
      var (blk1, x) := EmitArg(c, args[0], b, blk);
      var (blk2, xs) := EmitArgs(c, args[1..], b, blk1);
      (blk2, [x] + xs)
  }

  function EmitArg(c: Ctx, a: Argument, b: Block, blk: VBlock): (VBlock, Actual<Value>)
    decreases a, 2
  {
    match a
    case ValArg(e) => var (blk1, v) := EmitExpr(c, e, b, blk); (blk1, ByVal(v))
    case VarArg(d) => var (blk1, v) := EmitAddr(c, d, b, blk); (blk1, ByRef(v))
  }

  function EmitAssign(c: Ctx, t: Desig, e: Expr, b: Block, blk: VBlock): VBlock {
    var (blk1, v) := EmitExpr(c, e, b, blk);
    if t.Var? && IsSsa(c, t.decl) then blk1.(out := blk1.out[t.decl := v])
    else
      var (blk2, a) := EmitAddr(c, t, b, blk1);
      Push(b, blk2, StoreTo(a, v)).0
  }

  function EmitCopy(c: Ctx, t: Desig, d: Desig, b: Block, blk: VBlock): VBlock {
    var (blk1, a) := EmitAddr(c, t, b, blk);
    var (blk2, v) := EmitAddr(c, d, b, blk1);
    Push(b, blk2, CopyAll(a, v)).0
  }

  // ----- control flow -----

  function SetBlock(sk: Skel, blk: VBlock): Skel {
    if sk.curr < |sk.blocks| then sk.(blocks := sk.blocks[sk.curr := blk]) else sk
  }

  function CurrBlock(sk: Skel): VBlock {
    if sk.curr < |sk.blocks| then sk.blocks[sk.curr] else FRESH
  }

  function Terminate(sk: Skel, t: Term<Value>): Skel {
    SetBlock(sk, CurrBlock(sk).(term := t))
  }

  /** The branch closing an arm of an IF, unless RETURN closed it already. */
  function Fall(sk: Skel, to: Block): Skel {
    if CurrBlock(sk).term.Open? then Terminate(sk, Br(to)) else sk
  }

  function Enter(sk: Skel, b: Block): Skel { sk.(curr := b) }

  function NewBlocks(sk: Skel, n: nat): Skel {
    sk.(blocks := sk.blocks + seq(n, _ => FRESH))
  }

  function EmitCond(c: Ctx, e: Expr, sk: Skel): (Skel, Value) {
    var (blk, v) := EmitExpr(c, e, sk.curr, CurrBlock(sk));
    (SetBlock(sk, blk), v)
  }

  /** k new blocks for an IF, its condition, and the branch into its first arm. */
  function IfHead(c: Ctx, cond: Expr, sk: Skel, k: nat): Skel {
    var n := |sk.blocks|;
    var (sk1, v) := EmitCond(c, cond, NewBlocks(sk, k));
    Enter(Terminate(sk1, CondBr(v, n, n + 1)), n)
  }

  /** The blocks of a WHILE, its condition block, and the branch into its body. */
  function LoopHead(c: Ctx, cond: Expr, sk: Skel): Skel {
    var n := |sk.blocks|;
    var (sk1, v) := EmitCond(c, cond, Enter(Terminate(NewBlocks(sk, 3), Br(n)), n));
    Enter(Terminate(sk1, CondBr(v, n + 1, n + 2)), n + 1)
  }

  function EmitStmt(c: Ctx, st: Stmt, sk: Skel): Skel
    decreases st, 0
  {
    var n := |sk.blocks|;
    match st
    case Assign(t, e) => SetBlock(sk, EmitAssign(c, t, e, sk.curr, CurrBlock(sk)))
    case AssignWhole(t, d) => SetBlock(sk, EmitCopy(c, t, d, sk.curr, CurrBlock(sk)))
    case CallStmt(e) => SetBlock(sk, EmitExpr(c, e, sk.curr, CurrBlock(sk)).0)
    case If(cond, thn, els) =>
      if els == [] then
        Enter(Fall(EmitStmts(c, thn, IfHead(c, cond, sk, 2)), n + 1), n + 1)
      else
        var sk1 := Fall(EmitStmts(c, thn, IfHead(c, cond, sk, 3)), n + 2);
        Enter(Fall(EmitStmts(c, els, Enter(sk1, n + 1)), n + 2), n + 2)
    case While(cond, body) =>
      Enter(Terminate(EmitStmts(c, body, LoopHead(c, cond, sk)), Br(n)), n + 2)
    case Return(None) => Terminate(sk, RetVoid)
    case Return(Some(e)) =>
      var (sk1, v) := EmitCond(c, e, sk);
      Terminate(sk1, Ret(v))
  }

  function EmitStmts(c: Ctx, ss: seq<Stmt>, sk: Skel): Skel
    decreases ss, 1
  {
    if ss == [] then sk else EmitStmts(c, ss[1..], EmitStmt(c, ss[0], sk))
  }

  /** What a parameter or local contributes to the entry block. */
  function Declare(c: Ctx, d: Decl, blk: VBlock): VBlock {
    match KindOf(c.kinds, d)
    case VarParam => blk.(out := blk.out[d := Arg(d)])
    case AggregateParam => DeclareSlot(d, Arg(d), blk)
    case AggregateLocal(zero) => DeclareSlot(d, Const(zero), blk)
    case ScalarParam =>
      if d in c.promoted then Push(0, blk, StoreTo(SlotAddr(d), Arg(d))).0
      else blk.(out := blk.out[d := Arg(d)])
    case ScalarLocal(zero) =>
      if d in c.promoted then Push(0, blk, StoreTo(SlotAddr(d), Const(zero))).0 else blk
    case Global => blk
  }

  /** An aggregate gets a slot, filled with v; its SSA value is the address. */
  function DeclareSlot(d: Decl, v: Value, blk: VBlock): VBlock {
    var blk1 := Push(0, blk, StoreAll(SlotAddr(d), v)).0;
    blk1.(out := blk1.out[d := SlotAddr(d)])
  }

  function AddDecls(c: Ctx, ds: seq<Decl>, blk: VBlock): VBlock {
    if ds == [] then blk
    else Declare(c, ds[|ds| - 1], AddDecls(c, ds[..|ds| - 1], blk))
  }

  function EmitProc(c: Ctx, p: Proc): Skel {
    var entry := AddDecls(c, p.locals, AddDecls(c, p.params, FRESH));
    CloseBody(EmitStmts(c, p.body, Skel([entry], 0)))
  }

  /** A body that does not end in RETURN gets one. */
  function CloseBody(sk: Skel): Skel {
    if CurrBlock(sk).term.Open? then Terminate(sk, RetVoid) else sk
  }

  // ----- running the graph -----

  /** Running code defines registers only. */
  lemma {:induction false} EntryKept(w: World, code: seq<Instr<Value>>, b: Block, env: Env, m: Store, d: Decl)
    ensures Eval(w, ExecCode(w, code, b, env, m).0, Entry(d)) == Eval(w, env, Entry(d))
  {
    if code != [] { EntryKept(w, code[..|code| - 1], b, env, m, d); }
  }

  /** The variables on leaving a block that ended with env. */
  function NextVars(w: World, blk: VBlock, vars: Env, env: Env): Env {
    vars + map d | d in blk.out :: Entry(d) := Eval(w, env, blk.out[d])
  }

  /** The block a terminator leads to, if it leads to one. */
  function Successor(w: World, env: Env, t: Term<Value>): Option<Block> {
    match t
    case Br(b) => Some(b)
    case CondBr(c, yes, no) =>
      if Eval(w, env, c) == Bool(true) then Some(yes)
      else if Eval(w, env, c) == Bool(false) then Some(no)
      else None
    case _ => None
  }

  /** The outcome of a terminator that leads to no block. */
  function Final(w: World, env: Env, t: Term<Value>, m: Store): Outcome {
    match t
    case Ret(v) => Returned(Eval(w, env, v), Outside(m))
    case RetVoid => ReturnedVoid(Outside(m))
    case _ => Stuck
  }

  /** The entry of a block during a run. */
  datatype Point = Point(b: Block, v: Env, m: Store)

  function NextPoint(w: World, blocks: seq<VBlock>, p: Point): Option<Point> {
    if p.b >= |blocks| then None
    else
      var (env, m1) := ExecCode(w, blocks[p.b].code, p.b, p.v, p.m);
      match Successor(w, env, blocks[p.b].term)
      case Some(t) => Some(Point(t, NextVars(w, blocks[p.b], p.v, env), m1))
      case None => None
  }

  function HaltPoint(w: World, blocks: seq<VBlock>, p: Point): Outcome {
    if p.b >= |blocks| then Stuck
    else
      var (env, m1) := ExecCode(w, blocks[p.b].code, p.b, p.v, p.m);
      Final(w, env, blocks[p.b].term, m1)
  }

  function GraphMachine(w: World, blocks: seq<VBlock>): Machine<Point> {
    Machine(p => NextPoint(w, blocks, p), p => HaltPoint(w, blocks, p))
  }
}
