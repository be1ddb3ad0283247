/** Definite assignment: of a body that gives every scalar local a value before it
    looks at it, the meaning does not depend on what locals hold at first, and so
    not on which of them the emitter keeps in memory. */
module Definite {
  import opened Ir
  import opened Source
  import opened Skeleton
  import opened Expressions
  import opened Statements
  import opened SsaState
  import opened SsaRun
  import opened SsaCode
  import opened Correctness

  // ----- bodies that look at no local in u; u gets smaller as locals are set -----

  predicate ReadyExpr(e: Expr, u: set<Decl>)
    decreases e, 1
  {
    match e
    case Lit(_) => true
    case Read(d) => ReadyDesig(d, u)
    case Infix(_, l, r) => ReadyExpr(l, u) && ReadyExpr(r, u)
    case Prefix(_, e1) => ReadyExpr(e1, u)
    case ConstAccess(e1) => ReadyExpr(e1, u)
    case FunCall(_, args) => ReadyArgs(args, u)
    case MethodCall(recv, _, args) => ReadyDesig(recv, u) && ReadyArgs(args, u)
    case TypeTest(recv, _) => ReadyDesig(recv, u)
    case WholeOf(d) => ReadyDesig(d, u)
  }

  predicate ReadyDesig(d: Desig, u: set<Decl>)
    decreases d, 1
  {
    match d
    case Var(x) => x !in u
    case ResultOf(e, _) => ReadyExpr(e, u)
    case Index(base, idx, _) => ReadyDesig(base, u) && ReadyExpr(idx, u)
    case Field(base, _) => ReadyDesig(base, u)
  }

  predicate ReadyArgs(args: seq<Argument>, u: set<Decl>)
    decreases args, 0
  {
    args == [] || (ReadyArg(args[0], u) && ReadyArgs(args[1..], u))
  }

  predicate ReadyArg(a: Argument, u: set<Decl>)
    decreases a, 2
  {
    match a
    case ValArg(e) => ReadyExpr(e, u)
    case VarArg(d) => ReadyDesig(d, u)
  }

  /** What is left of u where the statement goes on, if it does. */
  function StillUnset(st: Stmt, u: set<Decl>): Option<set<Decl>>
    decreases st, 0
  {
    match st
    case Assign(t, _) => Some(if t.Var? then u - {t.decl} else u)
    case If(_, thn, els) =>
      (match (AllUnset(thn, u), AllUnset(els, u))
       case (Some(x), Some(y)) => Some(x + y)
       case (x, y) => if x.Some? then x else y)
    case Return(_) => None
    case _ => Some(u)
  }

  function AllUnset(ss: seq<Stmt>, u: set<Decl>): Option<set<Decl>>
    decreases ss, 1
  {
    if ss == [] then Some(u)
    else if StillUnset(ss[0], u).Some? then AllUnset(ss[1..], StillUnset(ss[0], u).value)
    else None
  }

  predicate ReadyStmts(ss: seq<Stmt>, u: set<Decl>)
    decreases ss, 1
  {
    ss == [] || (ReadyStmt(ss[0], u) &&
                 (StillUnset(ss[0], u).Some? ==> ReadyStmts(ss[1..], StillUnset(ss[0], u).value)))
  }

  predicate ReadyStmt(st: Stmt, u: set<Decl>)
    decreases st, 0
  {
    match st
    case Assign(t, e) => ReadyExpr(e, u) && (t.Var? || ReadyDesig(t, u))
    case AssignWhole(t, d) => ReadyDesig(t, u) && ReadyDesig(d, u)
    case CallStmt(e) => ReadyExpr(e, u)
    case If(cond, thn, els) => ReadyExpr(cond, u) && ReadyStmts(thn, u) && ReadyStmts(els, u)
    case While(cond, body) => ReadyExpr(cond, u) && ReadyStmts(body, u)
    case Return(e) => e.Some? ==> ReadyExpr(e.value, u)
  }

  // ----- stores that differ in what the locals in u hold -----

  predicate IsSlotOf(u: set<Decl>, l: Loc) { l.root.Frame? && l.root.decl in u && l.path == [] }

  ghost predicate Locals(ks: Kinds, u: set<Decl>) { forall d :: d in u ==> KindOf(ks, d).ScalarLocal? }

  ghost predicate SameBut(u: set<Decl>, s: Store, m: Store) {
    forall l :: !IsSlotOf(u, l) ==> (l in s <==> l in m) && (l in s ==> s[l] == m[l])
  }

  predicate Apart(u: set<Decl>, x: Val) { x.Ptr? ==> !(x.loc.root.Frame? && x.loc.root.decl in u) }

  ghost predicate ApartArgs(u: set<Decl>, args: seq<Actual<Val>>) {
    forall i :: 0 <= i < |args| && args[i].ByRef? ==> Apart(u, args[i].v)
  }

  lemma CallSame(w: World, u: set<Decl>, f: Val, args: seq<Actual<Val>>, s: Store, m: Store)
    requires SameBut(u, s, m) && ApartArgs(u, args)
    ensures CallEffect(w, f, args, s).0 == CallEffect(w, f, args, m).0
    ensures SameBut(u, CallEffect(w, f, args, s).1, CallEffect(w, f, args, m).1)
  {
    assert forall l :: Visible(args, l) ==> !IsSlotOf(u, l);
    assert VisiblePart(args, s) == VisiblePart(args, m);
  }

  lemma LoadAllAgrees(u: set<Decl>, a: Val, s: Store, m: Store)
    requires SameBut(u, s, m) && Apart(u, a)
    ensures LoadAllVal(s, a) == LoadAllVal(m, a)
  {
    if a.Ptr? { SameRegion(s, m, a.loc); }
  }

  lemma StoreAllAgrees(u: set<Decl>, a: Val, v: Val, s: Store, m: Store)
    requires SameBut(u, s, m)
    ensures SameBut(u, StoreAllVal(s, a, v), StoreAllVal(m, a, v))
  {
    if a.Ptr? {
      forall l | !IsSlotOf(u, l)
        ensures l in StoreAllVal(s, a, v) <==> l in StoreAllVal(m, a, v)
        ensures l in StoreAllVal(s, a, v) ==> StoreAllVal(s, a, v)[l] == StoreAllVal(m, a, v)[l]
      {
        StoredAt(s, a.loc, v, l);
        StoredAt(m, a.loc, v, l);
      }
    }
  }

  ghost predicate SameResult(u: set<Decl>, r: (Val, Store), q: (Val, Store)) {
    r.0 == q.0 && SameBut(u, r.1, q.1)
  }

  lemma {:induction false} ExprSame(ks: Kinds, w: World, e: Expr, u: set<Decl>, s: Store, m: Store)
    requires WorldOk(ks, w) && ReadyExpr(e, u) && SameBut(u, s, m)
    ensures SameResult(u, EvalExpr(ks, w, e, s), EvalExpr(ks, w, e, m))
    decreases e, 1
  {
    match e
    case Lit(_) =>
    case Read(d) => DesigSame(ks, w, d, u, s, m);
    case Infix(_, l, r) =>
      ExprSame(ks, w, l, u, s, m);
      ExprSame(ks, w, r, u, EvalExpr(ks, w, l, s).1, EvalExpr(ks, w, l, m).1);
    case Prefix(_, e1) => ExprSame(ks, w, e1, u, s, m);
    case ConstAccess(e1) => ExprSame(ks, w, e1, u, s, m);
    case FunCall(f, args) =>
      ArgsSame(ks, w, args, u, s, m);
      CallSame(w, u, Fn(f), EvalArgs(ks, w, args, s).0, EvalArgs(ks, w, args, s).1, EvalArgs(ks, w, args, m).1);
    case MethodCall(recv, slot, args) => MethodSame(ks, w, recv, slot, args, u, s, m);
    case TypeTest(recv, _) => DesigSame(ks, w, recv, u, s, m);
    case WholeOf(d) =>
      DesigSame(ks, w, d, u, s, m);
      LoadAllAgrees(u, EvalDesig(ks, w, d, s).0, EvalDesig(ks, w, d, s).1, EvalDesig(ks, w, d, m).1);
  }

  lemma MethodSame(ks: Kinds, w: World, recv: Desig, slot: nat, args: seq<Argument>, u: set<Decl>, s: Store, m: Store)
    requires WorldOk(ks, w) && ReadyDesig(recv, u) && ReadyArgs(args, u) && SameBut(u, s, m)
    ensures var (self, s1) := EvalDesig(ks, w, recv, s);
            var (me, m1) := EvalDesig(ks, w, recv, m);
            var (vs, s2) := EvalArgs(ks, w, args, s1);
            var (us, m2) := EvalArgs(ks, w, args, m1);
            SameResult(u, CallEffect(w, w.vtable(LoadVal(s1, self), slot), [ByRef(self)] + vs, s2),
                          CallEffect(w, w.vtable(LoadVal(m1, me), slot), [ByRef(me)] + us, m2))
    decreases MethodCall(recv, slot, args), 0
  {
    DesigSame(ks, w, recv, u, s, m);
    var (self, s1) := EvalDesig(ks, w, recv, s);
    var m1 := EvalDesig(ks, w, recv, m).1;
    ArgsSame(ks, w, args, u, s1, m1);
    var (vs, s2) := EvalArgs(ks, w, args, s1);
    CallSame(w, u, w.vtable(LoadVal(s1, self), slot), [ByRef(self)] + vs, s2, EvalArgs(ks, w, args, m1).1);
  }

  lemma {:induction false} DesigSame(ks: Kinds, w: World, d: Desig, u: set<Decl>, s: Store, m: Store)
    requires WorldOk(ks, w) && ReadyDesig(d, u) && SameBut(u, s, m)
    ensures SameResult(u, EvalDesig(ks, w, d, s), EvalDesig(ks, w, d, m)) && Apart(u, EvalDesig(ks, w, d, s).0)
    ensures var r := EvalDesig(ks, w, d, s); LoadVal(r.1, r.0) == LoadVal(EvalDesig(ks, w, d, m).1, r.0)
    decreases d, 1
  {
    match d
    case Var(_) =>
    case ResultOf(e, n) =>
      ExprSame(ks, w, e, u, s, m);
      var (v, s1) := EvalExpr(ks, w, e, s);
      StoreAllAgrees(u, Ptr(TempLoc(n)), v, s1, EvalExpr(ks, w, e, m).1);
    case Index(base, idx, _) =>
      DesigSame(ks, w, base, u, s, m);
      ExprSame(ks, w, idx, u, EvalDesig(ks, w, base, s).1, EvalDesig(ks, w, base, m).1);
    case Field(base, _) => DesigSame(ks, w, base, u, s, m);
  }

  lemma {:induction false} ArgsSame(ks: Kinds, w: World, args: seq<Argument>, u: set<Decl>, s: Store, m: Store)
    requires WorldOk(ks, w) && ReadyArgs(args, u) && SameBut(u, s, m)
    ensures var (r, q) := (EvalArgs(ks, w, args, s), EvalArgs(ks, w, args, m));
            r.0 == q.0 && SameBut(u, r.1, q.1) && ApartArgs(u, r.0)
    decreases args, 0
  {
    if args != [] {
      ArgSame(ks, w, args[0], u, s, m);
      ArgsSame(ks, w, args[1..], u, EvalArg(ks, w, args[0], s).1, EvalArg(ks, w, args[0], m).1);
    }
  }

  lemma ArgSame(ks: Kinds, w: World, a: Argument, u: set<Decl>, s: Store, m: Store)
    requires WorldOk(ks, w) && ReadyArg(a, u) && SameBut(u, s, m)
    ensures var (r, q) := (EvalArg(ks, w, a, s), EvalArg(ks, w, a, m));
            r.0 == q.0 && SameBut(u, r.1, q.1) && ApartArgs(u, [r.0])
    decreases a, 2
  {
    match a
    case ValArg(e) => ExprSame(ks, w, e, u, s, m);
    case VarArg(d) => DesigSame(ks, w, d, u, s, m);
  }

  // ----- statements -----

  /** The same ending; where it is normal, the stores differ in u at most. */
  ghost predicate SameEnding(u: Option<set<Decl>>, r: Ending, q: Ending) {
    match (r, q)
    case (Normal(s), Normal(m)) => u.Some? && SameBut(u.value, s, m)
    case (Exits(v, s), Exits(x, m)) => v == x && Outside(s) == Outside(m)
    case (Fails, Fails) => true
    case (Unfinished, Unfinished) => true
    case _ => false
  }

  lemma OutsideSame(u: set<Decl>, s: Store, m: Store)
    requires SameBut(u, s, m)
    ensures Outside(s) == Outside(m)
  {
  }

  lemma {:induction false} FewerUnset(ss: seq<Stmt>, u: set<Decl>)
    ensures AllUnset(ss, u).Some? ==> AllUnset(ss, u).value <= u
    decreases ss, 1
  {
    if ss != [] {
      StmtUnsets(ss[0], u);
      if StillUnset(ss[0], u).Some? { FewerUnset(ss[1..], StillUnset(ss[0], u).value); }
    }
  }

  lemma {:induction false} StmtUnsets(st: Stmt, u: set<Decl>)
    ensures StillUnset(st, u).Some? ==> StillUnset(st, u).value <= u
    decreases st, 0
  {
    if st.If? {
      FewerUnset(st.thn, u);
      FewerUnset(st.els, u);
    }
  }

  lemma {:induction false} StmtsSame(ks: Kinds, w: World, ss: seq<Stmt>, u: set<Decl>, s: Store, m: Store, fuel: nat)
    requires WorldOk(ks, w) && ReadyStmts(ss, u) && SameBut(u, s, m) && Locals(ks, u)
    ensures SameEnding(AllUnset(ss, u), ExecStmts(ks, w, ss, s, fuel), ExecStmts(ks, w, ss, m, fuel))
    decreases fuel, ss, 1
  {
    if ss != [] {
      StmtSame(ks, w, ss[0], u, s, m, fuel);
      var r := ExecStmt(ks, w, ss[0], s, fuel);
      StmtUnsets(ss[0], u);
      if r.Normal? {
        StmtsSame(ks, w, ss[1..], StillUnset(ss[0], u).value, r.s, ExecStmt(ks, w, ss[0], m, fuel).s, fuel);
      }
    }
  }

  lemma {:induction false} StmtSame(ks: Kinds, w: World, st: Stmt, u: set<Decl>, s: Store, m: Store, fuel: nat)
    requires WorldOk(ks, w) && ReadyStmt(st, u) && SameBut(u, s, m) && Locals(ks, u)
    ensures SameEnding(StillUnset(st, u), ExecStmt(ks, w, st, s, fuel), ExecStmt(ks, w, st, m, fuel))
    decreases fuel, st, 0
  {
    match st
    case Assign(t, e) => AssignSame(ks, w, t, e, u, s, m);
    case AssignWhole(t, d) => CopySame(ks, w, t, d, u, s, m);
    case CallStmt(e) => ExprSame(ks, w, e, u, s, m);
    case Return(e) =>
      if e.Some? {
        ExprSame(ks, w, e.value, u, s, m);
        OutsideSame(u, EvalExpr(ks, w, e.value, s).1, EvalExpr(ks, w, e.value, m).1);
      } else {
        OutsideSame(u, s, m);
      }
    case If(cond, thn, els) =>
      ExprSame(ks, w, cond, u, s, m);
      var (x, s1) := EvalExpr(ks, w, cond, s);
      var m1 := EvalExpr(ks, w, cond, m).1;
      StmtsSame(ks, w, thn, u, s1, m1, fuel);
      StmtsSame(ks, w, els, u, s1, m1, fuel);
    case While(cond, body) => if fuel > 0 { LoopSame(ks, w, st, u, s, m, fuel); }
  }

  lemma AssignSame(ks: Kinds, w: World, t: Desig, e: Expr, u: set<Decl>, s: Store, m: Store)
    requires WorldOk(ks, w) && ReadyStmt(Assign(t, e), u) && SameBut(u, s, m) && Locals(ks, u)
    ensures SameBut(StillUnset(Assign(t, e), u).value, ExecAssign(ks, w, t, e, s), ExecAssign(ks, w, t, e, m))
  {
    ExprSame(ks, w, e, u, s, m);
    var (s1, m1) := (EvalExpr(ks, w, e, s).1, EvalExpr(ks, w, e, m).1);
    if t.Var? {
      StoreSame(ks, w, t.decl, EvalExpr(ks, w, e, s).0, u, s1, m1);
    } else {
      DesigSame(ks, w, t, u, s1, m1);
    }
  }

  /** x := v gives x a value in both stores, wherever x lives. */
  lemma StoreSame(ks: Kinds, w: World, x: Decl, v: Val, u: set<Decl>, s: Store, m: Store)
    requires SameBut(u, s, m) && Locals(ks, u)
    ensures SameBut(u - {x}, StoreVal(s, AddrOf(ks, w, x), v), StoreVal(m, AddrOf(ks, w, x), v))
  {
  }

  lemma CopySame(ks: Kinds, w: World, t: Desig, d: Desig, u: set<Decl>, s: Store, m: Store)
    requires WorldOk(ks, w) && ReadyDesig(t, u) && ReadyDesig(d, u) && SameBut(u, s, m)
    ensures SameBut(u, ExecCopy(ks, w, t, d, s), ExecCopy(ks, w, t, d, m))
  {
    DesigSame(ks, w, t, u, s, m);
    var (a, s1) := EvalDesig(ks, w, t, s);
    var m1 := EvalDesig(ks, w, t, m).1;
    DesigSame(ks, w, d, u, s1, m1);
    var (b, s2) := EvalDesig(ks, w, d, s1);
    LoadAllAgrees(u, b, s2, EvalDesig(ks, w, d, m1).1);
    StoreAllAgrees(u, a, LoadAllVal(s2, b), s2, EvalDesig(ks, w, d, m1).1);
  }

  lemma LoopSame(ks: Kinds, w: World, st: Stmt, u: set<Decl>, s: Store, m: Store, fuel: nat)
    requires WorldOk(ks, w) && st.While? && ReadyStmt(st, u) && SameBut(u, s, m) && Locals(ks, u) && fuel > 0
    ensures SameEnding(Some(u), ExecStmt(ks, w, st, s, fuel), ExecStmt(ks, w, st, m, fuel))
    decreases fuel, st.body, 2
  {
    ExprSame(ks, w, st.cond, u, s, m);
    var (x, s1) := EvalExpr(ks, w, st.cond, s);
    var m1 := EvalExpr(ks, w, st.cond, m).1;
    if x == Bool(true) {
      StmtsSame(ks, w, st.body, u, s1, m1, fuel);
      FewerUnset(st.body, u);
      var r := ExecStmts(ks, w, st.body, s1, fuel);
      if r.Normal? { StmtSame(ks, w, st, u, r.s, ExecStmts(ks, w, st.body, m1, fuel).s, fuel - 1); }
    }
  }

  // ----- whole procedures -----

  /** The scalar locals, all without a value at first. */
  function AllLocals(p: Proc): set<Decl> {
    (set d | d in p.params && KindOf(p.kinds, d).ScalarLocal?) +
      (set d | d in p.locals && KindOf(p.kinds, d).ScalarLocal?)
  }

  /** Every local is assigned before it is looked at. */
  predicate AssignedFirst(p: Proc) { ReadyStmts(p.body, AllLocals(p)) }

  lemma {:induction false} InitSame(c: Ctx, c1: Ctx, ds: seq<Decl>, w: World, u: set<Decl>, s: Store, m: Store)
    requires c.kinds == c1.kinds && SameBut(u, s, m) &&
             forall d :: d in ds && KindOf(c.kinds, d).ScalarLocal? ==> d in u
    ensures SameBut(u, InitStore(c, ds, w, s), InitStore(c1, ds, w, m))
    decreases |ds|
  {
    if ds != [] {
      var n := |ds| - 1;
      InitSame(c, c1, ds[..n], w, u, s, m);
      InitOneSame(c, c1, ds[n], w, u, InitStore(c, ds[..n], w, s), InitStore(c1, ds[..n], w, m));
    }
  }

  lemma InitOneSame(c: Ctx, c1: Ctx, d: Decl, w: World, u: set<Decl>, s: Store, m: Store)
    requires c.kinds == c1.kinds && SameBut(u, s, m) && (KindOf(c.kinds, d).ScalarLocal? ==> d in u)
    ensures SameBut(u, InitDecl(c, d, w, s), InitDecl(c1, d, w, m))
  {
    match KindOf(c.kinds, d)
    case AggregateParam => StoreAllAgrees(u, Ptr(SlotLoc(d)), Eval(w, map[], Arg(d)), s, m);
    case AggregateLocal(zero) => StoreAllAgrees(u, Ptr(SlotLoc(d)), zero, s, m);
    case _ =>
  }

  /** What the reference semantics says of such a procedure does not depend on
      which scalars live in memory. */
  lemma MeaningNeedsNoSplit(c: Ctx, c1: Ctx, p: Proc, w: World, m0: Store, fuel: nat)
    requires c.kinds == p.kinds && c1.kinds == p.kinds && WorldOk(p.kinds, w) && AssignedFirst(p)
    ensures SourceRun(c, p, w, m0, fuel) == SourceRun(c1, p, w, m0, fuel)
  {
    var u := AllLocals(p);
    InitSame(c, c1, p.params, w, u, m0, m0);
    var (s, m) := (InitStore(c, p.params, w, m0), InitStore(c1, p.params, w, m0));
    InitSame(c, c1, p.locals, w, u, s, m);
    var (s1, m1) := (InitStore(c, p.locals, w, s), InitStore(c1, p.locals, w, m));
    StmtsSame(p.kinds, w, p.body, u, s1, m1, fuel);
    var r, q := ExecStmts(p.kinds, w, p.body, s1, fuel), ExecStmts(p.kinds, w, p.body, m1, fuel);
    if r.Normal? { OutsideSame(AllUnset(p.body, u).value, r.s, q.s); }
  }

  /** So the emitted function does what the statements say, no scalar being kept
      in memory for anybody's sake. */
  lemma EmissionMeansStatements(c: Ctx, p: Proc, s: Ssa, f: Program, w: World, m0: Store, o: Outcome)
    requires IsEmission(c, p, s, f) && Declared(p) && SlotsFresh(p.kinds, m0) && WorldOk(p.kinds, w)
    requires ReturnsLast(p.body) && EmittableStmts(c, p.body) && AssignedFirst(p) && o != OutOfFuel
    ensures SourceEnds(Ctx(p.kinds, {}), p, w, m0, o) <==> Ends(SsaMachine(w, f), SsaStart(m0), o)
  {
    EmissionPreservesMeaning(c, p, s, f, w, m0, o);
    var plain := Ctx(p.kinds, {});
    if SourceEnds(plain, p, w, m0, o) {
      var fuel: nat :| SourceRun(plain, p, w, m0, fuel) == o;
      MeaningNeedsNoSplit(c, plain, p, w, m0, fuel);
    }
    if SourceEnds(c, p, w, m0, o) {
      var fuel: nat :| SourceRun(c, p, w, m0, fuel) == o;
      MeaningNeedsNoSplit(c, plain, p, w, m0, fuel);
    }
  }
}
