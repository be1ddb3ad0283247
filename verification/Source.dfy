/** Procedure bodies as the semantic analysis leaves them, and their reference
    meaning: every variable lives in one store, whatever the code generator
    later decides to keep in registers. */
module Source {
  import opened Ir

  datatype Option<T> = None | Some(value: T)

  /** A designator: a variable, or the aggregate a call returns, with array indices
      and record fields applied. Every call has its own place. */
  datatype Desig =
    | Var(decl: Decl)
    | ResultOf(call: Expr, place: nat)
    | Index(base: Desig, idx: Expr, low: int)
    | Field(base: Desig, field: nat)

  datatype PrefixOp = Plus | Minus | LogicalNot

  /** An actual parameter, tagged by what its formal says. */
  datatype Argument = ValArg(e: Expr) | VarArg(d: Desig)

  datatype Expr =
    | Lit(v: Val)
    | Read(d: Desig)
    | Infix(op: BinOp, l: Expr, r: Expr)
    | Prefix(pop: PrefixOp, e: Expr)
    | ConstAccess(e: Expr)
    | FunCall(f: nat, args: seq<Argument>)
    | MethodCall(recv: Desig, slot: nat, args: seq<Argument>)
    | TypeTest(recv: Desig, desc: Loc)
    | WholeOf(d: Desig)   // the value of an aggregate: passed by value, or returned

  datatype Stmt =
    | Assign(target: Desig, e: Expr)
    | AssignWhole(target: Desig, source: Desig)
    | CallStmt(call: Expr)
    | If(cond: Expr, thn: seq<Stmt>, els: seq<Stmt>)
    | While(cond: Expr, body: seq<Stmt>)
    | Return(value: Option<Expr>)

  /** What a declaration is. One the procedure does not declare is a global. A
      local carries the zero value of its type. */
  datatype Kind =
    | ScalarLocal(zero: Val)
    | ScalarParam
    | AggregateLocal(zero: Val)
    | AggregateParam
    | VarParam
    | Global

  type Kinds = map<Decl, Kind>

  datatype Proc = Proc(params: seq<Decl>, locals: seq<Decl>, kinds: Kinds, body: seq<Stmt>)

  function KindOf(ks: Kinds, d: Decl): Kind {
    if d in ks then ks[d] else Global
  }

  predicate IsScalar(ks: Kinds, d: Decl) {
    KindOf(ks, d).ScalarLocal? || KindOf(ks, d).ScalarParam?
  }

  predicate IsAggregate(ks: Kinds, d: Decl) {
    KindOf(ks, d).AggregateLocal? || KindOf(ks, d).AggregateParam?
  }

  function SlotLoc(d: Decl): Loc { Loc(Frame(d), []) }

  /** Where the result of the call at place n is put. */
  function TempLoc(n: nat): Loc { Loc(Temp(n), []) }

  /** Where the variable d lives. */
  function AddrOf(ks: Kinds, w: World, d: Decl): Val {
    match KindOf(ks, d)
    case VarParam => Eval(w, map[], Arg(d))
    case Global => Ptr(Loc(Ext(d), []))
    case _ => Ptr(SlotLoc(d))
  }

  function PrefixVal(w: World, op: PrefixOp, v: Val): Val {
    match op
    case Plus => v
    case Minus => w.unary(Neg, v)
    case LogicalNot => w.unary(Not, v)
  }

  /** Values of expressions; operands left to right, calls may change the store. */
  function EvalExpr(ks: Kinds, w: World, e: Expr, s: Store): (Val, Store)
    decreases e, 1
  {
    match e
    case Lit(v) => (v, s)
    case Read(d) =>
      var (a, s1) := EvalDesig(ks, w, d, s);
      (LoadVal(s1, a), s1)
    case Infix(op, l, r) =>
      var (x, s1) := EvalExpr(ks, w, l, s);
      var (y, s2) := EvalExpr(ks, w, r, s1);
      (w.arith(op, x, y), s2)
    case Prefix(op, e1) =>
      var (x, s1) := EvalExpr(ks, w, e1, s);
      (PrefixVal(w, op, x), s1)
    case ConstAccess(e1) => EvalExpr(ks, w, e1, s)
    case FunCall(f, args) =>
      var (vs, s1) := EvalArgs(ks, w, args, s);
      CallEffect(w, Fn(f), vs, s1)
    case MethodCall(recv, slot, args) =>
      var (self, s1) := EvalDesig(ks, w, recv, s);
      var f := w.vtable(LoadVal(s1, self), slot);
      var (vs, s2) := EvalArgs(ks, w, args, s1);
      CallEffect(w, f, [ByRef(self)] + vs, s2)
    case TypeTest(recv, desc) =>
      var (self, s1) := EvalDesig(ks, w, recv, s);
      (w.arith(Eq, LoadVal(s1, self), Ptr(desc)), s1)
    case WholeOf(d) =>
      var (a, s1) := EvalDesig(ks, w, d, s);
      (LoadAllVal(s1, a), s1)
  }

  /** Addresses of designators. */
  function EvalDesig(ks: Kinds, w: World, d: Desig, s: Store): (Val, Store)
    decreases d, 1
  {
    match d
    case Var(x) => (AddrOf(ks, w, x), s)
    case ResultOf(e, n) =>
      var (v, s1) := EvalExpr(ks, w, e, s);
      (Ptr(TempLoc(n)), StoreAllVal(s1, Ptr(TempLoc(n)), v))
    case Index(base, idx, low) =>
      var (a, s1) := EvalDesig(ks, w, base, s);
      var (i, s2) := EvalExpr(ks, w, idx, s1);
      (Component(a, w.arith(WrapSub, i, Int(low))), s2)
    case Field(base, n) =>
      var (a, s1) := EvalDesig(ks, w, base, s);
      (Component(a, Int(n)), s1)
  }

  function EvalArgs(ks: Kinds, w: World, args: seq<Argument>, s: Store): (seq<Actual<Val>>, Store)
    decreases args, 0
  {
    if args == [] then ([], s)
    else
      var (x, s1) := EvalArg(ks, w, args[0], s);
      var (xs, s2) := EvalArgs(ks, w, args[1..], s1);
      ([x] + xs, s2)
  }

  function EvalArg(ks: Kinds, w: World, a: Argument, s: Store): (Actual<Val>, Store)
    decreases a, 2
  {
    match a
    case ValArg(e) => var (v, s1) := EvalExpr(ks, w, e, s); (ByVal(v), s1)
    case VarArg(d) => var (v, s1) := EvalDesig(ks, w, d, s); (ByRef(v), s1)
  }

  /** How a statement ends in the reference semantics. */
  datatype Ending =
    | Normal(s: Store)
    | Exits(v: Option<Val>, s: Store)
    | Fails
    | Unfinished

  /** Runs a statement; fuel bounds the iterations of each loop. */
  function ExecStmt(ks: Kinds, w: World, st: Stmt, s: Store, fuel: nat): Ending
    decreases fuel, st, 0
  {
    match st
    case Assign(t, e) => Normal(ExecAssign(ks, w, t, e, s))
    case AssignWhole(t, d) => Normal(ExecCopy(ks, w, t, d, s))
    case CallStmt(e) => Normal(EvalExpr(ks, w, e, s).1)
    case If(c, thn, els) =>
      var (v, s1) := EvalExpr(ks, w, c, s);
      if v == Bool(true) then ExecStmts(ks, w, thn, s1, fuel)
      else if v == Bool(false) then ExecStmts(ks, w, els, s1, fuel)
      else Fails
    case While(c, body) =>
      if fuel == 0 then Unfinished
      else
        var (v, s1) := EvalExpr(ks, w, c, s);
        if v == Bool(true) then
          var r := ExecStmts(ks, w, body, s1, fuel);
          if r.Normal? then ExecStmt(ks, w, st, r.s, fuel - 1) else r
        else if v == Bool(false) then Normal(s1)
        else Fails
    case Return(None) => Exits(None, s)
    case Return(Some(e)) => var (v, s1) := EvalExpr(ks, w, e, s); Exits(Some(v), s1)
  }

  function ExecStmts(ks: Kinds, w: World, ss: seq<Stmt>, s: Store, fuel: nat): Ending
    decreases fuel, ss, 1
  {
    if ss == [] then Normal(s)
    else
      var r := ExecStmt(ks, w, ss[0], s, fuel);
      if r.Normal? then ExecStmts(ks, w, ss[1..], r.s, fuel) else r
  }

  /** v := e computes e and then stores; a component's address is computed
      after e, which is the order the emitted calls are written in. */
  function ExecAssign(ks: Kinds, w: World, t: Desig, e: Expr, s: Store): Store {
    var (v, s1) := EvalExpr(ks, w, e, s);
    var (a, s2) := EvalDesig(ks, w, t, s1);
    StoreVal(s2, a, v)
  }

  /** v := w for aggregates: the address of v first, then w, then the copy. */
  function ExecCopy(ks: Kinds, w: World, t: Desig, d: Desig, s: Store): Store {
    var (a, s1) := EvalDesig(ks, w, t, s);
    var (b, s2) := EvalDesig(ks, w, d, s1);
    StoreAllVal(s2, a, LoadAllVal(s2, b))
  }

  /** What of the store outlives the procedure's frame. */
  function Outside(m: Store): Store {
    map l | l in m && l.root.Ext? :: m[l]
  }

  function ToOutcome(r: Ending): Outcome {
    match r
    case Normal(s) => ReturnedVoid(Outside(s))
    case Exits(None, s) => ReturnedVoid(Outside(s))
    case Exits(Some(v), s) => Returned(v, Outside(s))
    case Fails => Stuck
    case Unfinished => OutOfFuel
  }

  // ----- the shape of bodies the emitter accepts -----

  predicate EndsInReturn(ss: seq<Stmt>) {
    ss != [] && ss[|ss| - 1].Return?
  }

  /** RETURN occurs only last in a statement list and never last in a WHILE body. */
  predicate ReturnsLast(ss: seq<Stmt>)
    decreases ss, 1
  {
    ss == [] ||
    (ReturnsLastStmt(ss[0]) && (ss[0].Return? ==> |ss| == 1) && ReturnsLast(ss[1..]))
  }

  predicate ReturnsLastStmt(st: Stmt)
    decreases st, 0
  {
    match st
    case If(_, thn, els) => ReturnsLast(thn) && ReturnsLast(els)
    case While(_, body) => ReturnsLast(body) && !EndsInReturn(body)
    case _ => true
  }
}
