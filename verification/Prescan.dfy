/** Deciding, before emission, which scalars need a stack slot: those passed at
    a VAR position. Emission relies on the scan being complete. */
module Prescan {
  import opened Ir
  import opened Source
  import opened Skeleton
  import opened Expressions
  import opened Statements

  /** The declaration a designator is rooted at, if it is rooted at one. */
  function DesignatorDecl(d: Desig): Option<Decl> {
    match d
    case Var(x) => Some(x)
    case ResultOf(_, _) => None
    case Index(base, _, _) => DesignatorDecl(base)
    case Field(base, _) => DesignatorDecl(base)
  }

  /** The designator is rooted at a scalar, which is to say that it is one. */
  predicate OfScalar(ks: Kinds, d: Desig) {
    DesignatorDecl(d).Some? && IsScalar(ks, DesignatorDecl(d).value)
  }

  predicate IsCall(e: Expr) { e.FunCall? || e.MethodCall? }

  // ----- what the scan finds; with `deep`, also inside constants -----

  function NotedExpr(ks: Kinds, e: Expr, deep: bool): set<Decl>
    decreases e, 1
  {
    match e
    case Lit(_) => {}
    case Read(d) => NotedDesig(ks, d, deep)
    case Infix(_, l, r) => NotedExpr(ks, l, deep) + NotedExpr(ks, r, deep)
    case Prefix(_, e1) => NotedExpr(ks, e1, deep)
    case ConstAccess(e1) => if deep then NotedExpr(ks, e1, deep) else {}
    case FunCall(_, args) => NotedArgs(ks, args, deep)
    case MethodCall(recv, _, args) => NotedDesig(ks, recv, deep) + NotedArgs(ks, args, deep)
    case TypeTest(recv, _) => NotedDesig(ks, recv, deep)
    case WholeOf(d) => NotedDesig(ks, d, deep)
  }

  function NotedDesig(ks: Kinds, d: Desig, deep: bool): set<Decl>
    decreases d, 1
  {
    match d
    case Var(_) => {}
    case ResultOf(e, _) => NotedExpr(ks, e, deep)
    case Index(base, idx, _) => NotedDesig(ks, base, deep) + NotedExpr(ks, idx, deep)
    case Field(base, _) => NotedDesig(ks, base, deep)
  }

  function NotedArgs(ks: Kinds, args: seq<Argument>, deep: bool): set<Decl>
    decreases args, 0
  {
    if args == [] then {} else NotedArg(ks, args[0], deep) + NotedArgs(ks, args[1..], deep)
  }

  function NotedArg(ks: Kinds, a: Argument, deep: bool): set<Decl>
    decreases a, 2
  {
    match a
    case ValArg(e) => NotedExpr(ks, e, deep)
    case VarArg(d) => NotedDesig(ks, d, deep) + (if OfScalar(ks, d) then {DesignatorDecl(d).value} else {})
  }

  function NotedStmts(ks: Kinds, ss: seq<Stmt>, deep: bool): set<Decl>
    decreases ss, 1
  {
    if ss == [] then {} else NotedStmt(ks, ss[0], deep) + NotedStmts(ks, ss[1..], deep)
  }

  function NotedStmt(ks: Kinds, st: Stmt, deep: bool): set<Decl>
    decreases st, 0
  {
    match st
    case Assign(t, e) => NotedDesig(ks, t, deep) + NotedExpr(ks, e, deep)
    case AssignWhole(t, d) => NotedDesig(ks, t, deep) + NotedDesig(ks, d, deep)
    case CallStmt(e) => NotedExpr(ks, e, deep)
    case If(cond, thn, els) => NotedExpr(ks, cond, deep) + NotedStmts(ks, thn, deep) + NotedStmts(ks, els, deep)
    case While(cond, body) => NotedExpr(ks, cond, deep) + NotedStmts(ks, body, deep)
    case Return(e) => if e.Some? then NotedExpr(ks, e.value, deep) else {}
  }

  // ----- well-typed bodies: only aggregates have components and methods, and what
  // is assigned to, passed as VAR or sent a method is no call -----

  predicate TypedDesig(ks: Kinds, d: Desig)
    decreases d, 1
  {
    match d
    case Var(_) => true
    case ResultOf(e, _) => IsCall(e) && TypedExpr(ks, e)
    case Index(base, idx, _) => !OfScalar(ks, base) && TypedDesig(ks, base) && TypedExpr(ks, idx)
    case Field(base, _) => !OfScalar(ks, base) && TypedDesig(ks, base)
  }

  predicate TypedExpr(ks: Kinds, e: Expr)
    decreases e, 1
  {
    match e
    case Lit(_) => true
    case Read(d) => TypedDesig(ks, d) && !d.ResultOf?
    case Infix(_, l, r) => TypedExpr(ks, l) && TypedExpr(ks, r)
    case Prefix(_, e1) => TypedExpr(ks, e1)
    case ConstAccess(e1) => TypedExpr(ks, e1)
    case FunCall(_, args) => TypedArgs(ks, args)
    case MethodCall(recv, _, args) => !OfScalar(ks, recv) && TypedDesig(ks, recv) && !recv.ResultOf? &&
      TypedArgs(ks, args)
    case TypeTest(recv, _) => !OfScalar(ks, recv) && TypedDesig(ks, recv) && !recv.ResultOf?
    case WholeOf(d) => !OfScalar(ks, d) && TypedDesig(ks, d)
  }

  predicate TypedArgs(ks: Kinds, args: seq<Argument>)
    decreases args, 0
  {
    args == [] || (TypedArg(ks, args[0]) && TypedArgs(ks, args[1..]))
  }

  predicate TypedArg(ks: Kinds, a: Argument)
    decreases a, 2
  {
    match a
    case ValArg(e) => TypedExpr(ks, e)
    case VarArg(d) => TypedDesig(ks, d) && !d.ResultOf?
  }

  predicate TypedStmts(ks: Kinds, ss: seq<Stmt>)
    decreases ss, 1
  {
    ss == [] || (TypedStmt(ks, ss[0]) && TypedStmts(ks, ss[1..]))
  }

  predicate TypedStmt(ks: Kinds, st: Stmt)
    decreases st, 0
  {
    match st
    case Assign(t, e) => TypedDesig(ks, t) && !t.ResultOf? && TypedExpr(ks, e)
    case AssignWhole(t, d) =>
      !OfScalar(ks, t) && TypedDesig(ks, t) && !t.ResultOf? && !OfScalar(ks, d) && TypedDesig(ks, d)
    case CallStmt(e) => TypedExpr(ks, e)
    case If(cond, thn, els) => TypedExpr(ks, cond) && TypedStmts(ks, thn) && TypedStmts(ks, els)
    case While(cond, body) => TypedExpr(ks, cond) && TypedStmts(ks, body)
    case Return(e) => e.Some? ==> TypedExpr(ks, e.value)
  }

  // ----- emission succeeds exactly when every VAR scalar has a slot -----

  lemma {:induction false} DesigExact(c: Ctx, d: Desig)
    requires TypedDesig(c.kinds, d)
    ensures HasAddr(c, d) <==>
            NotedDesig(c.kinds, d, true) <= c.promoted &&
              (OfScalar(c.kinds, d) ==> DesignatorDecl(d).value in c.promoted)
    decreases d, 1
  {
    match d
    case Var(_) =>
    case ResultOf(e, _) => ExprExact(c, e);
    case Index(base, idx, _) => DesigExact(c, base); ExprExact(c, idx);
    case Field(base, _) => DesigExact(c, base);
  }

  lemma {:induction false} ExprExact(c: Ctx, e: Expr)
    requires TypedExpr(c.kinds, e)
    ensures Emittable(c, e) <==> NotedExpr(c.kinds, e, true) <= c.promoted
    decreases e, 1
  {
    match e
    case Lit(_) =>
    case Read(d) => DesigExact(c, d); RootNoted(c, d);
    case Infix(_, l, r) => ExprExact(c, l); ExprExact(c, r);
    case Prefix(_, e1) => ExprExact(c, e1);
    case ConstAccess(e1) => ExprExact(c, e1);
    case FunCall(_, args) => ArgsExact(c, args);
    case MethodCall(recv, _, args) => DesigExact(c, recv); ArgsExact(c, args);
    case TypeTest(recv, _) => DesigExact(c, recv);
    case WholeOf(d) => DesigExact(c, d);
  }

  /** A designator rooted at a scalar is that scalar. */
  lemma RootNoted(c: Ctx, d: Desig)
    requires TypedDesig(c.kinds, d)
    ensures OfScalar(c.kinds, d) ==> d.Var?
  {
  }

  lemma {:induction false} ArgsExact(c: Ctx, args: seq<Argument>)
    requires TypedArgs(c.kinds, args)
    ensures EmittableArgs(c, args) <==> NotedArgs(c.kinds, args, true) <= c.promoted
    decreases args, 0
  {
    if args != [] {
      ArgExact(c, args[0]);
      ArgsExact(c, args[1..]);
    }
  }

  lemma ArgExact(c: Ctx, a: Argument)
    requires TypedArg(c.kinds, a)
    ensures EmittableArg(c, a) <==> NotedArg(c.kinds, a, true) <= c.promoted
    decreases a, 2
  {
    match a
    case ValArg(e) => ExprExact(c, e);
    case VarArg(d) => DesigExact(c, d);
  }

  lemma {:induction false} StmtsExact(c: Ctx, ss: seq<Stmt>)
    requires TypedStmts(c.kinds, ss)
    ensures EmittableStmts(c, ss) <==> NotedStmts(c.kinds, ss, true) <= c.promoted
    decreases ss, 1
  {
    if ss != [] {
      StmtExact(c, ss[0]);
      StmtsExact(c, ss[1..]);
    }
  }

  lemma {:induction false} StmtExact(c: Ctx, st: Stmt)
    requires TypedStmt(c.kinds, st)
    ensures EmittableStmt(c, st) <==> NotedStmt(c.kinds, st, true) <= c.promoted
    decreases st, 0
  {
    match st
    case Assign(t, e) => ExprExact(c, e); DesigExact(c, t); RootNoted(c, t);
    case AssignWhole(t, d) => DesigExact(c, t); DesigExact(c, d);
    case CallStmt(e) => ExprExact(c, e);
    case If(cond, thn, els) => ExprExact(c, cond); StmtsExact(c, thn); StmtsExact(c, els);
    case While(cond, body) => ExprExact(c, cond); StmtsExact(c, body);
    case Return(e) => if e.Some? { ExprExact(c, e.value); }
  }

  // ----- a body with its constants taken out -----

  function PlainExpr(e: Expr): Expr
    decreases e, 1
  {
    match e
    case Lit(v) => e
    case Read(d) => Read(PlainDesig(d))
    case Infix(op, l, r) => Infix(op, PlainExpr(l), PlainExpr(r))
    case Prefix(op, e1) => Prefix(op, PlainExpr(e1))
    case ConstAccess(_) => Lit(Undefined)
    case FunCall(f, args) => FunCall(f, PlainArgs(args))
    case MethodCall(recv, slot, args) => MethodCall(PlainDesig(recv), slot, PlainArgs(args))
    case TypeTest(recv, desc) => TypeTest(PlainDesig(recv), desc)
    case WholeOf(d) => WholeOf(PlainDesig(d))
  }

  function PlainDesig(d: Desig): Desig
    decreases d, 1
  {
    match d
    case Var(_) => d
    case ResultOf(e, n) => ResultOf(PlainExpr(e), n)
    case Index(base, idx, low) => Index(PlainDesig(base), PlainExpr(idx), low)
    case Field(base, n) => Field(PlainDesig(base), n)
  }

  function PlainArgs(args: seq<Argument>): seq<Argument>
    decreases args, 0
  {
    if args == [] then [] else [PlainArg(args[0])] + PlainArgs(args[1..])
  }

  function PlainArg(a: Argument): Argument
    decreases a, 2
  {
    match a
    case ValArg(e) => ValArg(PlainExpr(e))
    case VarArg(d) => VarArg(PlainDesig(d))
  }

  /** The statements, each constant replaced by a literal. */
  function PlainStmts(ss: seq<Stmt>): seq<Stmt>
    decreases ss, 1
  {
    if ss == [] then [] else [PlainStmt(ss[0])] + PlainStmts(ss[1..])
  }

  function PlainStmt(st: Stmt): Stmt
    decreases st, 0
  {
    match st
    case Assign(t, e) => Assign(PlainDesig(t), PlainExpr(e))
    case AssignWhole(t, d) => AssignWhole(PlainDesig(t), PlainDesig(d))
    case CallStmt(e) => CallStmt(PlainExpr(e))
    case If(cond, thn, els) => If(PlainExpr(cond), PlainStmts(thn), PlainStmts(els))
    case While(cond, body) => While(PlainExpr(cond), PlainStmts(body))
    case Return(e) => if e.Some? then Return(Some(PlainExpr(e.value))) else st
  }

  lemma {:induction false} PlainDesigNotes(ks: Kinds, d: Desig)
    requires TypedDesig(ks, d)
    ensures TypedDesig(ks, PlainDesig(d)) && NotedDesig(ks, PlainDesig(d), true) == NotedDesig(ks, d, false)
    ensures DesignatorDecl(PlainDesig(d)) == DesignatorDecl(d) && (PlainDesig(d).ResultOf? <==> d.ResultOf?)
    decreases d, 1
  {
    match d
    case Var(_) =>
    case ResultOf(e, _) => PlainExprNotes(ks, e);
    case Index(base, idx, _) => PlainDesigNotes(ks, base); PlainExprNotes(ks, idx);
    case Field(base, _) => PlainDesigNotes(ks, base);
  }

  lemma {:induction false} PlainExprNotes(ks: Kinds, e: Expr)
    requires TypedExpr(ks, e)
    ensures TypedExpr(ks, PlainExpr(e)) && NotedExpr(ks, PlainExpr(e), true) == NotedExpr(ks, e, false)
    ensures IsCall(PlainExpr(e)) <==> IsCall(e)
    decreases e, 1
  {
    match e
    case Lit(_) =>
    case Read(d) => PlainDesigNotes(ks, d);
    case Infix(_, l, r) => PlainExprNotes(ks, l); PlainExprNotes(ks, r);
    case Prefix(_, e1) => PlainExprNotes(ks, e1);
    case ConstAccess(_) =>
    case FunCall(_, args) => PlainArgsNotes(ks, args);
    case MethodCall(recv, _, args) => PlainDesigNotes(ks, recv); PlainArgsNotes(ks, args);
    case TypeTest(recv, _) => PlainDesigNotes(ks, recv);
    case WholeOf(d) => PlainDesigNotes(ks, d);
  }

  lemma {:induction false} PlainArgsNotes(ks: Kinds, args: seq<Argument>)
    requires TypedArgs(ks, args)
    ensures TypedArgs(ks, PlainArgs(args)) && NotedArgs(ks, PlainArgs(args), true) == NotedArgs(ks, args, false)
    decreases args, 0
  {
    if args != [] {
      PlainArgNotes(ks, args[0]);
      PlainArgsNotes(ks, args[1..]);
      var plain := PlainArgs(args);
      assert plain[0] == PlainArg(args[0]) && plain[1..] == PlainArgs(args[1..]);
    }
  }

  lemma PlainArgNotes(ks: Kinds, a: Argument)
    requires TypedArg(ks, a)
    ensures TypedArg(ks, PlainArg(a)) && NotedArg(ks, PlainArg(a), true) == NotedArg(ks, a, false)
    decreases a, 2
  {
    match a
    case ValArg(e) => PlainExprNotes(ks, e);
    case VarArg(d) => PlainDesigNotes(ks, d);
  }

  lemma {:induction false} PlainStmtsNotes(ks: Kinds, ss: seq<Stmt>)
    requires TypedStmts(ks, ss)
    ensures TypedStmts(ks, PlainStmts(ss)) && NotedStmts(ks, PlainStmts(ss), true) == NotedStmts(ks, ss, false)
    decreases ss, 1
  {
    if ss != [] {
      PlainStmtNotes(ks, ss[0]);
      PlainStmtsNotes(ks, ss[1..]);
      var plain := PlainStmts(ss);
      assert plain[0] == PlainStmt(ss[0]) && plain[1..] == PlainStmts(ss[1..]);
    }
  }

  lemma {:induction false} PlainStmtNotes(ks: Kinds, st: Stmt)
    requires TypedStmt(ks, st)
    ensures TypedStmt(ks, PlainStmt(st)) && NotedStmt(ks, PlainStmt(st), true) == NotedStmt(ks, st, false)
    decreases st, 0
  {
    match st
    case Assign(t, e) => PlainDesigNotes(ks, t); PlainExprNotes(ks, e);
    case AssignWhole(t, d) => PlainDesigNotes(ks, t); PlainDesigNotes(ks, d);
    case CallStmt(e) => PlainExprNotes(ks, e);
    case If(cond, thn, els) => PlainExprNotes(ks, cond); PlainStmtsNotes(ks, thn); PlainStmtsNotes(ks, els);
    case While(cond, body) => PlainExprNotes(ks, cond); PlainStmtsNotes(ks, body);
    case Return(e) => if e.Some? { PlainExprNotes(ks, e.value); }
  }

  /** The scan finds exactly the slots needed outside constants: a set of slots has
      all it finds if and only if the body without its constants is emitted with
      them. */
  lemma ScanExact(ks: Kinds, ss: seq<Stmt>, slots: set<Decl>)
    requires TypedStmts(ks, ss)
    ensures NotedStmts(ks, ss, false) <= slots <==> EmittableStmts(Ctx(ks, slots), PlainStmts(ss))
  {
    PlainStmtsNotes(ks, ss);
    StmtsExact(Ctx(ks, slots), PlainStmts(ss));
  }

  /** So whatever it finds has to have a slot. */
  lemma NotedIsNeeded(ks: Kinds, ss: seq<Stmt>, slots: set<Decl>, d: Decl)
    requires TypedStmts(ks, ss) && d in NotedStmts(ks, ss, false) && d !in slots
    ensures !EmittableStmts(Ctx(ks, slots), ss)
  {
    StmtsExact(Ctx(ks, slots), ss);
    StmtsWithin(ks, ss);
  }

  // What is found outside constants is found, and nothing else if these have no calls.

  /** Constants in e have no calls; inside one, e has none itself. */
  predicate QuietExpr(e: Expr, inside: bool)
    decreases e, 1
  {
    match e
    case Lit(_) => true
    case Read(d) => QuietDesig(d, inside)
    case Infix(_, l, r) => QuietExpr(l, inside) && QuietExpr(r, inside)
    case Prefix(_, e1) => QuietExpr(e1, inside)
    case ConstAccess(e1) => QuietExpr(e1, true)
    case FunCall(_, args) => !inside && QuietArgs(args, inside)
    case MethodCall(recv, _, args) => !inside && QuietDesig(recv, inside) && QuietArgs(args, inside)
    case TypeTest(recv, _) => QuietDesig(recv, inside)
    case WholeOf(d) => QuietDesig(d, inside)
  }

  predicate QuietDesig(d: Desig, inside: bool)
    decreases d, 1
  {
    match d
    case Var(_) => true
    case ResultOf(e, _) => QuietExpr(e, inside)
    case Index(base, idx, _) => QuietDesig(base, inside) && QuietExpr(idx, inside)
    case Field(base, _) => QuietDesig(base, inside)
  }

  predicate QuietArgs(args: seq<Argument>, inside: bool)
    decreases args, 0
  {
    args == [] || (QuietArg(args[0], inside) && QuietArgs(args[1..], inside))
  }

  predicate QuietArg(a: Argument, inside: bool)
    decreases a, 2
  {
    match a
    case ValArg(e) => QuietExpr(e, inside)
    case VarArg(d) => QuietDesig(d, inside)
  }

  /** No constant in the statements has a call. */
  predicate QuietStmts(ss: seq<Stmt>)
    decreases ss, 1
  {
    ss == [] || (QuietStmt(ss[0]) && QuietStmts(ss[1..]))
  }

  predicate QuietStmt(st: Stmt)
    decreases st, 0
  {
    match st
    case Assign(t, e) => QuietDesig(t, false) && QuietExpr(e, false)
    case AssignWhole(t, d) => QuietDesig(t, false) && QuietDesig(d, false)
    case CallStmt(e) => QuietExpr(e, false)
    case If(cond, thn, els) => QuietExpr(cond, false) && QuietStmts(thn) && QuietStmts(els)
    case While(cond, body) => QuietExpr(cond, false) && QuietStmts(body)
    case Return(e) => e.Some? ==> QuietExpr(e.value, false)
  }

  lemma {:induction false} DesigWithin(ks: Kinds, d: Desig)
    ensures NotedDesig(ks, d, false) <= NotedDesig(ks, d, true)
    ensures QuietDesig(d, false) ==> NotedDesig(ks, d, true) == NotedDesig(ks, d, false)
    ensures QuietDesig(d, true) ==> NotedDesig(ks, d, true) == {}
    decreases d, 1
  {
    match d
    case Var(_) =>
    case ResultOf(e, _) => ExprWithin(ks, e);
    case Index(base, idx, _) => DesigWithin(ks, base); ExprWithin(ks, idx);
    case Field(base, _) => DesigWithin(ks, base);
  }

  lemma {:induction false} ExprWithin(ks: Kinds, e: Expr)
    ensures NotedExpr(ks, e, false) <= NotedExpr(ks, e, true)
    ensures QuietExpr(e, false) ==> NotedExpr(ks, e, true) == NotedExpr(ks, e, false)
    ensures QuietExpr(e, true) ==> NotedExpr(ks, e, true) == {}
    decreases e, 1
  {
    match e
    case Lit(_) =>
    case Read(d) => DesigWithin(ks, d);
    case Infix(_, l, r) => ExprWithin(ks, l); ExprWithin(ks, r);
    case Prefix(_, e1) => ExprWithin(ks, e1);
    case ConstAccess(e1) => ExprWithin(ks, e1);
    case FunCall(_, args) => ArgsWithin(ks, args);
    case MethodCall(recv, _, args) => DesigWithin(ks, recv); ArgsWithin(ks, args);
    case TypeTest(recv, _) => DesigWithin(ks, recv);
    case WholeOf(d) => DesigWithin(ks, d);
  }

  lemma {:induction false} ArgsWithin(ks: Kinds, args: seq<Argument>)
    ensures NotedArgs(ks, args, false) <= NotedArgs(ks, args, true)
    ensures QuietArgs(args, false) ==> NotedArgs(ks, args, true) == NotedArgs(ks, args, false)
    decreases args, 0
  {
    if args != [] {
      ArgWithin(ks, args[0]);
      ArgsWithin(ks, args[1..]);
    }
  }

  lemma ArgWithin(ks: Kinds, a: Argument)
    ensures NotedArg(ks, a, false) <= NotedArg(ks, a, true)
    ensures QuietArg(a, false) ==> NotedArg(ks, a, true) == NotedArg(ks, a, false)
    decreases a, 2
  {
    match a
    case ValArg(e) => ExprWithin(ks, e);
    case VarArg(d) => DesigWithin(ks, d);
  }

  lemma {:induction false} StmtsWithin(ks: Kinds, ss: seq<Stmt>)
    ensures NotedStmts(ks, ss, false) <= NotedStmts(ks, ss, true)
    ensures QuietStmts(ss) ==> NotedStmts(ks, ss, true) == NotedStmts(ks, ss, false)
    decreases ss, 1
  {
    if ss != [] {
      StmtWithin(ks, ss[0]);
      StmtsWithin(ks, ss[1..]);
    }
  }

  lemma {:induction false} StmtWithin(ks: Kinds, st: Stmt)
    ensures NotedStmt(ks, st, false) <= NotedStmt(ks, st, true)
    ensures QuietStmt(st) ==> NotedStmt(ks, st, true) == NotedStmt(ks, st, false)
    decreases st, 0
  {
    match st
    case Assign(t, e) => DesigWithin(ks, t); ExprWithin(ks, e);
    case AssignWhole(t, d) => DesigWithin(ks, t); DesigWithin(ks, d);
    case CallStmt(e) => ExprWithin(ks, e);
    case If(cond, thn, els) => ExprWithin(ks, cond); StmtsWithin(ks, thn); StmtsWithin(ks, els);
    case While(cond, body) => ExprWithin(ks, cond); StmtsWithin(ks, body);
    case Return(e) => if e.Some? { ExprWithin(ks, e.value); }
  }

  /** Where no constant has a call the scan finds exactly the least set of slots. */
  lemma ScanIsLeast(ks: Kinds, ss: seq<Stmt>, slots: set<Decl>)
    requires TypedStmts(ks, ss) && QuietStmts(ss)
    ensures EmittableStmts(Ctx(ks, slots), ss) <==> NotedStmts(ks, ss, false) <= slots
  {
    StmtsExact(Ctx(ks, slots), ss);
    StmtsWithin(ks, ss);
  }

  /** The scan that stays out of constants is complete exactly when constants
      pass no scalar at a VAR position that the body does not pass itself. */
  lemma PrescanComplete(ks: Kinds, ss: seq<Stmt>)
    requires TypedStmts(ks, ss)
    ensures EmittableStmts(Ctx(ks, NotedStmts(ks, ss, false)), ss)
            <==> NotedStmts(ks, ss, true) <= NotedStmts(ks, ss, false)
  {
    StmtsExact(Ctx(ks, NotedStmts(ks, ss, false)), ss);
  }

  /** It is not for CONST c = F(x); BEGIN y := c END, where F takes x as VAR. */
  lemma PrescanMissesConstants()
    ensures var ks: Kinds := map[0 := ScalarLocal(Int(0)), 1 := ScalarLocal(Int(0))];
            var body := [Assign(Var(1), ConstAccess(FunCall(0, [VarArg(Var(0))])))];
            TypedStmts(ks, body) && !EmittableStmts(Ctx(ks, NotedStmts(ks, body, false)), body)
  {
    var ks: Kinds := map[0 := ScalarLocal(Int(0)), 1 := ScalarLocal(Int(0))];
    var args := [VarArg(Var(0))];
    var constant := ConstAccess(FunCall(0, args));
    var body := [Assign(Var(1), constant)];
    assert args[1..] == [] && body[1..] == [];
    assert TypedArg(ks, args[0]) && TypedArgs(ks, args) && TypedExpr(ks, constant) && TypedStmt(ks, body[0]);
    assert NotedStmt(ks, body[0], false) == {};
    assert !EmittableArg(Ctx(ks, {}), args[0]);
    assert !EmittableArgs(Ctx(ks, {}), args);
    assert !Emittable(Ctx(ks, {}), constant);
  }

  // ----- the scan itself -----

  /** collectByRefLocals and noteVarArguments: a walk that fills a set. */
  class Scanner {
    const kinds: Kinds
    var byRef: set<Decl>

    constructor (ks: Kinds)
      ensures kinds == ks && byRef == {}
    {
      kinds := ks;
      byRef := {};
    }

    method CollectExpr(e: Expr)
      modifies this
      ensures byRef == old(byRef) + NotedExpr(kinds, e, false)
      decreases e, 1
    {
      match e {
        case Lit(_) =>
        case Read(d) => CollectDesig(d);
        case Infix(_, l, r) => CollectExpr(l); CollectExpr(r);
        case Prefix(_, e1) => CollectExpr(e1);
        case ConstAccess(_) =>
        case FunCall(_, args) => CollectArgs(args); NoteVarArguments(args);
        case MethodCall(recv, _, args) => CollectDesig(recv); CollectArgs(args); NoteVarArguments(args);
        case TypeTest(recv, _) => CollectDesig(recv);
        case WholeOf(d) => CollectDesig(d);
      }
      if e.FunCall? || e.MethodCall? { ArgsUnion(kinds, e.args); }
    }

    method CollectDesig(d: Desig)
      modifies this
      ensures byRef == old(byRef) + NotedDesig(kinds, d, false)
      decreases d, 1
    {
      match d {
        case Var(_) =>
        case ResultOf(e, _) => CollectExpr(e);
        case Index(base, idx, _) => CollectDesig(base); CollectExpr(idx);
        case Field(base, _) => CollectDesig(base);
      }
    }

    method CollectArgs(args: seq<Argument>)
      modifies this
      ensures byRef == old(byRef) + InsideArgs(kinds, args)
      decreases args, 0
    {
      for i := 0 to |args|
        invariant byRef + InsideArgs(kinds, args[i..]) == old(byRef) + InsideArgs(kinds, args)
      {
        assert args[i..][1..] == args[i + 1..];
        CollectArg(args[i]);
      }
    }

    method CollectArg(a: Argument)
      modifies this
      ensures byRef == old(byRef) + InsideArg(kinds, a)
      decreases a, 2
    {
      match a {
        case ValArg(e) => CollectExpr(e);
        case VarArg(d) => CollectDesig(d);
      }
    }

    /** Notes the scalars among the arguments at VAR positions. */
    method NoteVarArguments(args: seq<Argument>)
      modifies this
      ensures byRef == old(byRef) + VarScalars(kinds, args)
    {
      for i := 0 to |args|
        invariant byRef + VarScalars(kinds, args[i..]) == old(byRef) + VarScalars(kinds, args)
      {
        assert args[i..][1..] == args[i + 1..];
        if args[i].VarArg? && OfScalar(kinds, args[i].d) {
          byRef := byRef + {DesignatorDecl(args[i].d).value};
        }
      }
    }

    method CollectStmts(ss: seq<Stmt>)
      modifies this
      ensures byRef == old(byRef) + NotedStmts(kinds, ss, false)
      decreases ss, 1
    {
      for i := 0 to |ss|
        invariant byRef + NotedStmts(kinds, ss[i..], false) == old(byRef) + NotedStmts(kinds, ss, false)
      {
        assert ss[i..][1..] == ss[i + 1..];
        CollectStmt(ss[i]);
      }
    }

    method CollectStmt(st: Stmt)
      modifies this
      ensures byRef == old(byRef) + NotedStmt(kinds, st, false)
      decreases st, 0
    {
      match st {
        case Assign(t, e) => CollectDesig(t); CollectExpr(e);
        case AssignWhole(t, d) => CollectDesig(t); CollectDesig(d);
        case CallStmt(e) => CollectExpr(e);
        case If(cond, thn, els) => CollectExpr(cond); CollectStmts(thn); CollectStmts(els);
        case While(cond, body) => CollectExpr(cond); CollectStmts(body);
        case Return(e) => if e.Some? { CollectExpr(e.value); }
      }
    }
  }

  /** What is found inside arguments. */
  function InsideArgs(ks: Kinds, args: seq<Argument>): set<Decl> {
    if args == [] then {} else InsideArg(ks, args[0]) + InsideArgs(ks, args[1..])
  }

  function InsideArg(ks: Kinds, a: Argument): set<Decl> {
    match a
    case ValArg(e) => NotedExpr(ks, e, false)
    case VarArg(d) => NotedDesig(ks, d, false)
  }

  /** The scalars passed at VAR positions. */
  function VarScalars(ks: Kinds, args: seq<Argument>): set<Decl> {
    if args == [] then {}
    else
      (if args[0].VarArg? && OfScalar(ks, args[0].d) then {DesignatorDecl(args[0].d).value} else {}) +
        VarScalars(ks, args[1..])
  }

  lemma {:induction false} ArgsUnion(ks: Kinds, args: seq<Argument>)
    ensures InsideArgs(ks, args) + VarScalars(ks, args) == NotedArgs(ks, args, false)
  {
    if args != [] { ArgsUnion(ks, args[1..]); }
  }
}
