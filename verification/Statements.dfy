/** Running the emitted graph follows the reference semantics of statements:
    same results, and no result as long as the statements have none. */
module Statements {
  import opened Ir
  import opened Source
  import opened Machines
  import opened Skeleton
  import opened Expressions
  import opened Shape

  predicate EmittableStmts(c: Ctx, ss: seq<Stmt>)
    decreases ss, 1
  {
    ss == [] || (EmittableStmt(c, ss[0]) && EmittableStmts(c, ss[1..]))
  }

  predicate EmittableStmt(c: Ctx, st: Stmt)
    decreases st, 0
  {
    match st
    case Assign(t, e) => Emittable(c, e) && ((t.Var? && IsSsa(c, t.decl)) || Denotes(c, t))
    case AssignWhole(t, d) => Denotes(c, t) && HasAddr(c, d)
    case CallStmt(e) => Emittable(c, e)
    case If(cond, thn, els) => Emittable(c, cond) && EmittableStmts(c, thn) && EmittableStmts(c, els)
    case While(cond, body) => Emittable(c, cond) && EmittableStmts(c, body)
    case Return(e) => e.Some? ==> Emittable(c, e.value)
  }

  // ----- how a run continues -----

  /** The run from p does what a machine running the graph fin does. */
  ghost predicate Runs(mc: Machine<Point>, w: World, fin: seq<VBlock>) {
    forall p {:trigger Visited(p)} :: mc.next(p) == NextPoint(w, fin, p) && mc.halt(p) == HaltPoint(w, fin, p)
  }

  predicate Visited(p: Point) { true }

  /** After k steps from p the run is at q. */
  ghost predicate LeadsTo(mc: Machine<Point>, p: Point, k: nat, q: Point) {
    Steps(mc, p, k) == Some(q)
  }

  lemma {:induction false} LeadsTrans(mc: Machine<Point>, p: Point, k: nat, q: Point, k1: nat, r: Point)
    requires LeadsTo(mc, p, k, q) && LeadsTo(mc, q, k1, r)
    ensures LeadsTo(mc, p, k + k1, r)
    decreases k
  {
    if k > 0 {
      LeadsTrans(mc, mc.next(p).value, k - 1, q, k1, r);
    }
  }

  /** The rest of the run from q is the rest of the run from p. */
  lemma {:induction false} LeadsRun(mc: Machine<Point>, p: Point, k: nat, q: Point, n: nat)
    requires LeadsTo(mc, p, k, q)
    ensures Run(mc, p, k + n) == Run(mc, q, n)
    decreases k
  {
    if k > 0 {
      LeadsRun(mc, mc.next(p).value, k - 1, q, n);
    }
  }

  // ----- one block -----

  /** Terminated blocks of sk are final. */
  ghost predicate Frozen(sk: Skel, fin: seq<VBlock>) {
    |sk.blocks| <= |fin| &&
    forall b :: 0 <= b < |sk.blocks| && !sk.blocks[b].term.Open? ==> fin[b] == sk.blocks[b]
  }

  lemma FrozenBefore(sk: Skel, sk1: Skel, fin: seq<VBlock>)
    requires Advanced(sk, sk1) && Frozen(sk1, fin) && Writable(sk)
    ensures Frozen(sk, fin)
  {
  }

  /** Entering the next block keeps what the state stands for. */
  lemma JumpSim(c: Ctx, w: World, b: Block, blk: VBlock, v0: Env, m0: Store, s: Store, to: Block)
    requires At(c, w, b, blk, v0, m0, s)
    ensures var (env, m1) := After(w, b, blk, v0, m0);
            At(c, w, to, FRESH, NextVars(w, blk, v0, env), m1, s)
  {
    var (env, m1) := After(w, b, blk, v0, m0);
    var v1 := NextVars(w, blk, v0, env);
    forall d ensures Eval(w, v1, Entry(d)) == Eval(w, env, Current(blk.out, d)) {
      EntryKept(w, blk.code, b, v0, m0, d);
      NextVar(w, blk, v0, env, d);
    }
    EntryRel(c, w, s, env, blk.out, m1, v1);
  }

  lemma NextVar(w: World, blk: VBlock, v0: Env, env: Env, d: Decl)
    requires Eval(w, env, Entry(d)) == Eval(w, v0, Entry(d))
    ensures Eval(w, NextVars(w, blk, v0, env), Entry(d)) == Eval(w, env, Current(blk.out, d))
  {
  }

  lemma EntryRel(c: Ctx, w: World, s: Store, env: Env, out: map<Decl, Value>, m: Store, v1: Env)
    requires Rel(c, w, s, env, out, m)
    requires forall d :: Eval(w, v1, Entry(d)) == Eval(w, env, Current(out, d))
    ensures Rel(c, w, s, v1, map[], m)
  {
  }

  /** A branch from a finished block: one step. */
  lemma Jump(c: Ctx, w: World, fin: seq<VBlock>, mc: Machine<Point>, p: Point, blk: VBlock, t: Term<Value>, s: Store,
             to: Block)
      returns (q: Point)
    requires At(c, w, p.b, blk, p.v, p.m, s)
    requires Runs(mc, w, fin) && p.b < |fin| && fin[p.b] == blk.(term := t)
    requires Successor(w, After(w, p.b, blk, p.v, p.m).0, t) == Some(to)
    ensures LeadsTo(mc, p, 1, q) && q.b == to
    ensures At(c, w, to, FRESH, q.v, q.m, s)
  {
    var (env, m2) := After(w, p.b, blk, p.v, p.m);
    q := Point(to, NextVars(w, blk, p.v, env), m2);
    assert Visited(p);
    OneStep(mc, p, q);
    JumpSim(c, w, p.b, blk, p.v, p.m, s, to);
  }

  lemma OneStep(mc: Machine<Point>, p: Point, q: Point)
    requires mc.next(p) == Some(q)
    ensures LeadsTo(mc, p, 1, q)
  {
    assert Steps(mc, q, 0) == Some(q);
  }

  lemma OutsideSame(c: Ctx, s: Store, m: Store)
    requires SameMem(c, s, m)
    ensures Outside(s) == Outside(m)
  {
  }

  /** The end of a run in a finished block. */
  lemma Halt(c: Ctx, w: World, fin: seq<VBlock>, mc: Machine<Point>, p: Point, blk: VBlock, t: Term<Value>, s: Store)
    requires At(c, w, p.b, blk, p.v, p.m, s)
    requires Runs(mc, w, fin) && p.b < |fin| && fin[p.b] == blk.(term := t)
    requires Successor(w, After(w, p.b, blk, p.v, p.m).0, t) == None
    ensures var env := After(w, p.b, blk, p.v, p.m).0;
            Run(mc, p, 1) == match t
              case Ret(v) => Returned(Eval(w, env, v), Outside(s))
              case RetVoid => ReturnedVoid(Outside(s))
              case _ => Stuck
  {
    OutsideSame(c, s, After(w, p.b, blk, p.v, p.m).1);
    assert Visited(p);
    assert Run(mc, p, 1) == mc.halt(p);
  }

  // ----- statements -----

  /** The point of emission sk, reached in a run at p, stands for store s. */
  ghost predicate Here(c: Ctx, w: World, sk: Skel, p: Point, s: Store) {
    p.b == sk.curr < |sk.blocks| && At(c, w, sk.curr, CurrBlock(sk), p.v, p.m, s)
  }

  /** What the run from p does when the statements end as r: it reaches the
      emission point sk1 standing for the new store, or ends the same way, or is
      still running after fuel steps. */
  ghost predicate Follows(c: Ctx, w: World, r: Ending, mc: Machine<Point>, p: Point, sk1: Skel, k: nat, q: Point,
                          fuel: nat) {
    match r
    case Normal(s1) => Here(c, w, sk1, q, s1) && LeadsTo(mc, p, k, q)
    case Unfinished => Run(mc, p, fuel) == OutOfFuel
    case _ => Run(mc, p, k) == ToOutcome(r)
  }

  lemma FollowsAfter(c: Ctx, w: World, r: Ending, mc: Machine<Point>, p: Point, k: nat, q: Point, sk2: Skel, k1: nat,
                     q1: Point, fuel: nat, fuel0: nat)
    requires LeadsTo(mc, p, k, q)
    requires Follows(c, w, r, mc, q, sk2, k1, q1, fuel) && fuel0 <= fuel + k
    ensures Follows(c, w, r, mc, p, sk2, k + k1, q1, fuel0)
  {
    match r
    case Normal(_) => LeadsTrans(mc, p, k, q, k1, q1);
    case Unfinished =>
      LeadsRun(mc, p, k, q, fuel);
      RunMono(mc, p, fuel0, k + fuel);
    case _ => LeadsRun(mc, p, k, q, k1);
  }

  /** Branching on a condition. */
  lemma BranchSim(c: Ctx, w: World, cond: Expr, blk: VBlock, fin: seq<VBlock>, mc: Machine<Point>, yes: Block,
                  no: Block, p: Point, s: Store)
      returns (q: Point)
    requires Runs(mc, w, fin) && WorldOk(c.kinds, w) && Emittable(c, cond) && At(c, w, p.b, blk, p.v, p.m, s)
    requires p.b < |fin|
    requires var (blk1, v) := EmitExpr(c, cond, p.b, blk); fin[p.b] == blk1.(term := CondBr(v, yes, no))
    ensures var (x, s1) := EvalExpr(c.kinds, w, cond, s);
            if x == Bool(true) then
              q.b == yes && LeadsTo(mc, p, 1, q) && At(c, w, yes, FRESH, q.v, q.m, s1)
            else if x == Bool(false) then
              q.b == no && LeadsTo(mc, p, 1, q) && At(c, w, no, FRESH, q.v, q.m, s1)
            else Run(mc, p, 1) == Stuck
  {
    ExprSim(c, w, cond, p.b, blk, p.v, p.m, s);
    var (blk1, v) := EmitExpr(c, cond, p.b, blk);
    var (x, s1) := EvalExpr(c.kinds, w, cond, s);
    q := p;
    if x == Bool(true) {
      q := Jump(c, w, fin, mc, p, blk1, CondBr(v, yes, no), s1, yes);
    } else if x == Bool(false) {
      q := Jump(c, w, fin, mc, p, blk1, CondBr(v, yes, no), s1, no);
    } else {
      Halt(c, w, fin, mc, p, blk1, CondBr(v, yes, no), s1);
    }
  }

  lemma ReturnNotNormal(ks: Kinds, w: World, ss: seq<Stmt>, s: Store, fuel: nat)
    requires ExecStmts(ks, w, ss, s, fuel).Normal?
    ensures !EndsInReturn(ss)
    decreases |ss|
  {
    if ss != [] {
      var r := ExecStmt(ks, w, ss[0], s, fuel);
      ReturnNotNormal(ks, w, ss[1..], r.s, fuel);
    }
  }

  lemma {:induction false} StmtsSim(c: Ctx, w: World, ss: seq<Stmt>, sk: Skel, fin: seq<VBlock>, mc: Machine<Point>,
                                    p: Point, s: Store, fuel: nat)
      returns (k: nat, q: Point)
    requires Runs(mc, w, fin) && WorldOk(c.kinds, w) && ReturnsLast(ss) && EmittableStmts(c, ss)
    requires Writable(sk) && Here(c, w, sk, p, s) && Frozen(EmitStmts(c, ss, sk), fin)
    ensures Follows(c, w, ExecStmts(c.kinds, w, ss, s, fuel), mc, p, EmitStmts(c, ss, sk), k, q, fuel)
    decreases fuel, ss, 3
  {
    if ss == [] {
      k, q := 0, p;
    } else if ss[0].Return? {
      k, q := LastSim(c, w, ss, sk, fin, mc, p, s, fuel);
    } else {
      k, q := ConsSim(c, w, ss, sk, fin, mc, p, s, fuel);
    }
  }

  lemma LastSim(c: Ctx, w: World, ss: seq<Stmt>, sk: Skel, fin: seq<VBlock>, mc: Machine<Point>, p: Point, s: Store,
                fuel: nat)
      returns (k: nat, q: Point)
    requires Runs(mc, w, fin) && WorldOk(c.kinds, w) && ReturnsLast(ss) && EmittableStmts(c, ss)
    requires Writable(sk) && Here(c, w, sk, p, s) && Frozen(EmitStmts(c, ss, sk), fin)
    requires ss != [] && ss[0].Return?
    ensures Follows(c, w, ExecStmts(c.kinds, w, ss, s, fuel), mc, p, EmitStmts(c, ss, sk), k, q, fuel)
    decreases fuel, ss, 2
  {
    assert ss[1..] == [];
    assert EmitStmts(c, ss, sk) == EmitStmt(c, ss[0], sk);
    k, q := StmtSim(c, w, ss[0], sk, fin, mc, p, s, fuel);
    assert ExecStmts(c.kinds, w, ss, s, fuel) == ExecStmt(c.kinds, w, ss[0], s, fuel);
  }

  lemma ConsSim(c: Ctx, w: World, ss: seq<Stmt>, sk: Skel, fin: seq<VBlock>, mc: Machine<Point>, p: Point, s: Store,
                fuel: nat)
      returns (k: nat, q: Point)
    requires Runs(mc, w, fin) && WorldOk(c.kinds, w) && ReturnsLast(ss) && EmittableStmts(c, ss)
    requires Writable(sk) && Here(c, w, sk, p, s) && Frozen(EmitStmts(c, ss, sk), fin)
    requires ss != [] && !ss[0].Return?
    ensures Follows(c, w, ExecStmts(c.kinds, w, ss, s, fuel), mc, p, EmitStmts(c, ss, sk), k, q, fuel)
    decreases fuel, ss, 2
  {
    var sk1 := EmitStmt(c, ss[0], sk);
    StmtAdvances(c, ss[0], sk);
    EmitAdvances(c, ss[1..], sk1);
    FrozenBefore(sk1, EmitStmts(c, ss[1..], sk1), fin);
    k, q := StmtSim(c, w, ss[0], sk, fin, mc, p, s, fuel);
    var r := ExecStmt(c.kinds, w, ss[0], s, fuel);
    if r.Normal? {
      var k0, q0 := k, q;
      var k1;
      k1, q := StmtsSim(c, w, ss[1..], sk1, fin, mc, q0, r.s, fuel);
      k := k0 + k1;
      FollowsAfter(c, w, ExecStmts(c.kinds, w, ss[1..], r.s, fuel), mc, p, k0, q0,
                   EmitStmts(c, ss[1..], sk1), k1, q, fuel, fuel);
    }
  }

  lemma {:induction false} StmtSim(c: Ctx, w: World, st: Stmt, sk: Skel, fin: seq<VBlock>, mc: Machine<Point>, p: Point,
                                   s: Store, fuel: nat)
      returns (k: nat, q: Point)
    requires Runs(mc, w, fin) && WorldOk(c.kinds, w) && ReturnsLastStmt(st) && EmittableStmt(c, st)
    requires Writable(sk) && Here(c, w, sk, p, s) && Frozen(EmitStmt(c, st, sk), fin)
    ensures Follows(c, w, ExecStmt(c.kinds, w, st, s, fuel), mc, p, EmitStmt(c, st, sk), k, q, fuel)
    decreases fuel, st, 2
  {
    k, q := 0, p;
    match st {
      case Assign(t, e) =>
        AssignSim(c, w, t, e, sk.curr, CurrBlock(sk), p.v, p.m, s);
      case AssignWhole(t, d) =>
        CopyFrame(c, t, d, sk.curr, CurrBlock(sk));
        CopySim(c, w, t, d, sk.curr, CurrBlock(sk), p.v, p.m, s);
      case CallStmt(e) =>
        ExprSim(c, w, e, sk.curr, CurrBlock(sk), p.v, p.m, s);
      case Return(e) =>
        ReturnSim(c, w, e, sk, fin, mc, p, s, fuel);
        k := 1;
      case If(_, _, els) =>
        if els == [] {
          k, q := IfSim(c, w, st, sk, fin, mc, p, s, fuel);
        } else {
          k, q := IfElseSim(c, w, st, sk, fin, mc, p, s, fuel);
        }
      case While(_, _) =>
        k, q := WhileSim(c, w, st, sk, fin, mc, p, s, fuel);
    }
  }

  lemma ReturnSim(c: Ctx, w: World, e: Option<Expr>, sk: Skel, fin: seq<VBlock>, mc: Machine<Point>, p: Point, s: Store,
                  fuel: nat)
    requires Runs(mc, w, fin) && WorldOk(c.kinds, w) && EmittableStmt(c, Return(e))
    requires Writable(sk) && Here(c, w, sk, p, s) && Frozen(EmitStmt(c, Return(e), sk), fin)
    ensures Run(mc, p, 1) == ToOutcome(ExecStmt(c.kinds, w, Return(e), s, fuel))
  {
    match e
    case None => Halt(c, w, fin, mc, p, CurrBlock(sk), RetVoid, s);
    case Some(x) =>
      ExprSim(c, w, x, sk.curr, CurrBlock(sk), p.v, p.m, s);
      var (blk1, v) := EmitExpr(c, x, sk.curr, CurrBlock(sk));
      Halt(c, w, fin, mc, p, blk1, Ret(v), EvalExpr(c.kinds, w, x, s).1);
  }

  /** An arm of an IF, from the branch into it to the block behind the IF. */
  lemma ArmSim(c: Ctx, w: World, ss: seq<Stmt>, sk: Skel, to: Block, fin: seq<VBlock>, mc: Machine<Point>,
               p0: Point, p: Point, s: Store, fuel: nat, end: Skel)
      returns (k: nat, q: Point)
    requires Runs(mc, w, fin) && WorldOk(c.kinds, w) && ReturnsLast(ss) && EmittableStmts(c, ss) && Writable(sk)
    requires LeadsTo(mc, p0, 1, p)
    requires Here(c, w, sk, p, s) && Frozen(Fall(EmitStmts(c, ss, sk), to), fin)
    requires end.curr == to < |end.blocks| && end.blocks[to] == FRESH
    ensures Follows(c, w, ExecStmts(c.kinds, w, ss, s, fuel), mc, p0, end, k, q, fuel)
    decreases fuel, ss, 4
  {
    EmitAdvances(c, ss, sk);
    var sk1 := EmitStmts(c, ss, sk);
    var r := ExecStmts(c.kinds, w, ss, s, fuel);
    var k1, q1 := StmtsSim(c, w, ss, sk, fin, mc, p, s, fuel);
    k, q := k1, q1;
    if r.Normal? {
      ReturnNotNormal(c.kinds, w, ss, s, fuel);
      q := Jump(c, w, fin, mc, q1, CurrBlock(sk1), Br(to), r.s, to);
      LeadsTrans(mc, p, k1, q1, 1, q);
      k := k1 + 1;
    }
    FollowsAfter(c, w, r, mc, p0, 1, p, end, k, q, fuel, fuel);
    k := 1 + k;
  }

  lemma IfSim(c: Ctx, w: World, st: Stmt, sk: Skel, fin: seq<VBlock>, mc: Machine<Point>, p: Point, s: Store, fuel: nat)
      returns (k: nat, q: Point)
    requires Runs(mc, w, fin) && WorldOk(c.kinds, w) && st.If? && st.els == [] && ReturnsLastStmt(st) &&
             EmittableStmt(c, st)
    requires Writable(sk) && Here(c, w, sk, p, s) && Frozen(EmitStmt(c, st, sk), fin)
    ensures Follows(c, w, ExecStmt(c.kinds, w, st, s, fuel), mc, p, EmitStmt(c, st, sk), k, q, fuel)
    decreases fuel, st, 1
  {
    IfFrozen(c, st, sk, fin);
    CondFrozen(c, st.cond, st.thn, sk, 2, |sk.blocks| + 1, fin);
    k, q := ThenSim(c, w, st.cond, st.thn, sk, fin, mc, p, s, fuel, EmitStmt(c, st, sk));
    ExecIfIs(c.kinds, w, st, s, fuel);
  }

  lemma IfFrozen(c: Ctx, st: Stmt, sk: Skel, fin: seq<VBlock>)
    requires st.If? && st.els == [] && ReturnsLastStmt(st) && Writable(sk) && Frozen(EmitStmt(c, st, sk), fin)
    ensures var n, end := |sk.blocks|, EmitStmt(c, st, sk);
            && Frozen(Fall(EmitStmts(c, st.thn, IfHead(c, st.cond, sk, 2)), n + 1), fin)
            && end.curr == n + 1 < |end.blocks| && end.blocks[n + 1] == FRESH
  {
    IfAdvances(c, st, sk);
  }

  /** The reference semantics of an IF without ELSE. */
  function ExecIf(ks: Kinds, w: World, cond: Expr, thn: seq<Stmt>, s: Store, fuel: nat): Ending {
    var (x, s1) := EvalExpr(ks, w, cond, s);
    if x == Bool(true) then ExecStmts(ks, w, thn, s1, fuel)
    else if x == Bool(false) then Normal(s1)
    else Fails
  }

  lemma ExecIfIs(ks: Kinds, w: World, st: Stmt, s: Store, fuel: nat)
    requires st.If? && st.els == []
    ensures ExecStmt(ks, w, st, s, fuel) == ExecIf(ks, w, st.cond, st.thn, s, fuel)
  {
  }

  lemma ThenSim(c: Ctx, w: World, cond: Expr, thn: seq<Stmt>, sk: Skel, fin: seq<VBlock>, mc: Machine<Point>, p: Point,
                s: Store, fuel: nat, end: Skel) returns (k: nat, q: Point)
    requires Runs(mc, w, fin) && WorldOk(c.kinds, w) && ReturnsLast(thn) && Emittable(c, cond) && EmittableStmts(c, thn)
    requires Writable(sk) && Here(c, w, sk, p, s) && sk.curr < |fin|
    requires var n, head, (blk1, v) := |sk.blocks|, IfHead(c, cond, sk, 2), EmitExpr(c, cond, sk.curr, CurrBlock(sk));
             && Frozen(Fall(EmitStmts(c, thn, head), n + 1), fin) && Writable(head) && head.curr == n &&
               CurrBlock(head) == FRESH
             && fin[sk.curr] == blk1.(term := CondBr(v, n, n + 1))
             && end.curr == n + 1 < |end.blocks| && end.blocks[n + 1] == FRESH
    ensures Follows(c, w, ExecIf(c.kinds, w, cond, thn, s, fuel), mc, p, end, k, q, fuel)
    decreases fuel, thn, 5
  {
    var n := |sk.blocks|;
    var (x, s1) := EvalExpr(c.kinds, w, cond, s);
    k := 1;
    q := BranchSim(c, w, cond, CurrBlock(sk), fin, mc, n, n + 1, p, s);
    if x == Bool(true) {
      k, q := ArmSim(c, w, thn, IfHead(c, cond, sk, 2), n + 1, fin, mc, p, q, s1, fuel, end);
    }
  }

  lemma IfElseSim(c: Ctx, w: World, st: Stmt, sk: Skel, fin: seq<VBlock>, mc: Machine<Point>, p: Point, s: Store,
                  fuel: nat)
      returns (k: nat, q: Point)
    requires Runs(mc, w, fin) && WorldOk(c.kinds, w) && st.If? && st.els != [] && ReturnsLastStmt(st) &&
             EmittableStmt(c, st)
    requires Writable(sk) && Here(c, w, sk, p, s) && Frozen(EmitStmt(c, st, sk), fin)
    ensures Follows(c, w, ExecStmt(c.kinds, w, st, s, fuel), mc, p, EmitStmt(c, st, sk), k, q, fuel)
    decreases fuel, st, 1
  {
    ElseFrozen(c, st, sk, fin);
    ThenFrozen(c, st, sk, fin);
    CondFrozen(c, st.cond, st.thn, sk, 3, |sk.blocks| + 2, fin);
    k, q := ChoiceSim(c, w, st, sk, IfHead(c, st.cond, sk, 3), ElseHead(c, st, sk), EmitStmt(c, st, sk), fin, mc, p, s,
                      fuel);
  }

  lemma ChoiceSim(c: Ctx, w: World, st: Stmt, sk: Skel, head: Skel, mid: Skel, end: Skel, fin: seq<VBlock>,
                  mc: Machine<Point>, p: Point, s: Store, fuel: nat) returns (k: nat, q: Point)
    requires Runs(mc, w, fin) && WorldOk(c.kinds, w) && st.If? && ReturnsLastStmt(st) && EmittableStmt(c, st)
    requires Writable(sk) && Here(c, w, sk, p, s) && sk.curr < |fin|
    requires Writable(head) && head.curr == |sk.blocks| && CurrBlock(head) == FRESH
    requires Writable(mid) && mid.curr == |sk.blocks| + 1 && CurrBlock(mid) == FRESH
    requires Frozen(Fall(EmitStmts(c, st.thn, head), |sk.blocks| + 2), fin) &&
             Frozen(Fall(EmitStmts(c, st.els, mid), |sk.blocks| + 2), fin)
    requires var (n, (blk1, v)) := (|sk.blocks|, EmitExpr(c, st.cond, sk.curr, CurrBlock(sk)));
             fin[sk.curr] == blk1.(term := CondBr(v, n, n + 1))
    requires end.curr == |sk.blocks| + 2 < |end.blocks| && end.blocks[end.curr] == FRESH
    ensures Follows(c, w, ExecStmt(c.kinds, w, st, s, fuel), mc, p, end, k, q, fuel)
    decreases fuel, st, 0
  {
    var n := |sk.blocks|;
    var (x, s1) := EvalExpr(c.kinds, w, st.cond, s);
    k := 1;
    q := BranchSim(c, w, st.cond, CurrBlock(sk), fin, mc, n, n + 1, p, s);
    if x.Bool? {
      k, q := PickSim(c, w, st, if x.b then st.thn else st.els, if x.b then head else mid,
                      n + 2, fin, mc, p, q, s, x.b, s1, fuel, end);
    }
  }

  /** The arm the condition picks. */
  lemma PickSim(c: Ctx, w: World, st: Stmt, ss: seq<Stmt>, sk: Skel, to: Block, fin: seq<VBlock>, mc: Machine<Point>,
                p0: Point, p: Point, s: Store, yes: bool, s1: Store, fuel: nat, end: Skel)
      returns (k: nat, q: Point)
    requires Runs(mc, w, fin) && WorldOk(c.kinds, w) && ReturnsLast(ss) && EmittableStmts(c, ss) && Writable(sk)
    requires st.If? && EvalExpr(c.kinds, w, st.cond, s) == (Bool(yes), s1) && ss == if yes then st.thn else st.els
    requires LeadsTo(mc, p0, 1, p)
    requires Here(c, w, sk, p, s1) && Frozen(Fall(EmitStmts(c, ss, sk), to), fin)
    requires end.curr == to < |end.blocks| && end.blocks[to] == FRESH
    ensures Follows(c, w, ExecStmt(c.kinds, w, st, s, fuel), mc, p0, end, k, q, fuel)
    decreases fuel, ss, 5
  {
    k, q := ArmSim(c, w, ss, sk, to, fin, mc, p0, p, s1, fuel, end);
  }

  /** What the arms of an IF with ELSE leave behind is final: the second arm. */
  lemma ElseFrozen(c: Ctx, st: Stmt, sk: Skel, fin: seq<VBlock>)
    requires st.If? && st.els != [] && ReturnsLastStmt(st) && Writable(sk) && Frozen(EmitStmt(c, st, sk), fin)
    ensures var n, mid := |sk.blocks|, ElseHead(c, st, sk);
            && Writable(mid) && mid.curr == n + 1 && CurrBlock(mid) == FRESH
            && Frozen(Fall(EmitStmts(c, st.els, mid), n + 2), fin)
    ensures CurrBlock(EmitStmt(c, st, sk)) == FRESH && Writable(EmitStmt(c, st, sk))
  {
    ElseHeadShape(c, st, sk);
    IfElseAdvances(c, st, sk);
  }

  /** The first arm. */
  lemma ThenFrozen(c: Ctx, st: Stmt, sk: Skel, fin: seq<VBlock>)
    requires st.If? && st.els != [] && ReturnsLastStmt(st) && Writable(sk) && Frozen(EmitStmt(c, st, sk), fin)
    ensures Frozen(Fall(EmitStmts(c, st.thn, IfHead(c, st.cond, sk, 3)), |sk.blocks| + 2), fin)
  {
    var n := |sk.blocks|;
    var mid := ElseHead(c, st, sk);
    ElseHeadShape(c, st, sk);
    ArmShape(c, st.els, mid, n + 2);
    ElseFrozen(c, st, sk, fin);
    FrozenElse(Fall(EmitStmts(c, st.thn, IfHead(c, st.cond, sk, 3)), n + 2), mid,
               Fall(EmitStmts(c, st.els, mid), n + 2), fin);
  }

  /** The block with the condition. */
  lemma CondFrozen(c: Ctx, cond: Expr, thn: seq<Stmt>, sk: Skel, k: nat, to: Block, fin: seq<VBlock>)
    requires Writable(sk) && 2 <= k && ReturnsLast(thn) &&
             Frozen(Fall(EmitStmts(c, thn, IfHead(c, cond, sk, k)), to), fin)
    ensures var n, head := |sk.blocks|, IfHead(c, cond, sk, k);
            && Writable(head) && head.curr == n && CurrBlock(head) == FRESH
            && sk.curr < |fin|
            && var (blk1, v) := EmitExpr(c, cond, sk.curr, CurrBlock(sk));
               fin[sk.curr] == blk1.(term := CondBr(v, n, n + 1))
  {
    IfHeadShape(c, cond, sk, k);
    ArmShape(c, thn, IfHead(c, cond, sk, k), to);
  }

  lemma FrozenElse(sk: Skel, mid: Skel, last: Skel, fin: seq<VBlock>)
    requires mid.blocks == sk.blocks && Advanced(mid, last) && Writable(mid) && Frozen(last, fin)
    ensures Frozen(sk, fin)
  {
  }

  lemma WhileSim(c: Ctx, w: World, st: Stmt, sk: Skel, fin: seq<VBlock>, mc: Machine<Point>, p: Point, s: Store,
                 fuel: nat) returns (k: nat, q: Point)
    requires Runs(mc, w, fin) && WorldOk(c.kinds, w) && st.While? && ReturnsLastStmt(st) && EmittableStmt(c, st)
    requires Writable(sk) && Here(c, w, sk, p, s) && Frozen(EmitStmt(c, st, sk), fin)
    ensures Follows(c, w, ExecStmt(c.kinds, w, st, s, fuel), mc, p, EmitStmt(c, st, sk), k, q, fuel)
    decreases fuel, st, 1
  {
    var n := |sk.blocks|;
    LoopHeadShape(c, st.cond, sk);
    EmitAdvances(c, st.body, LoopHead(c, st.cond, sk));
    var q0 := Jump(c, w, fin, mc, p, CurrBlock(sk), Br(n), s, n);
    var k1;
    k1, q := LoopSim(c, w, st, sk, fin, mc, q0, s, fuel);
    k := 1 + k1;
    FollowsAfter(c, w, ExecStmt(c.kinds, w, st, s, fuel), mc, p, 1, q0, EmitStmt(c, st, sk), k1, q, fuel, fuel);
  }

  /** The condition block and the body of a WHILE are final. */
  lemma LoopFrozen(c: Ctx, st: Stmt, sk: Skel, fin: seq<VBlock>)
    requires st.While? && ReturnsLastStmt(st) && Writable(sk) && Frozen(EmitStmt(c, st, sk), fin)
    ensures var n, head := |sk.blocks|, LoopHead(c, st.cond, sk);
            && Writable(head) && head.curr == n + 1 && CurrBlock(head) == FRESH && n + 2 < |fin|
            && Frozen(EmitStmts(c, st.body, head), fin)
            && (var sk1 := EmitStmts(c, st.body, head);
                sk1.curr < |fin| && fin[sk1.curr] == CurrBlock(sk1).(term := Br(n)))
            && (var (blk1, v) := EmitExpr(c, st.cond, n, FRESH); fin[n] == blk1.(term := CondBr(v, n + 1, n + 2)))
    ensures CurrBlock(EmitStmt(c, st, sk)) == FRESH && Writable(EmitStmt(c, st, sk))
    ensures EmitStmt(c, st, sk).curr == |sk.blocks| + 2
  {
    LoopHeadShape(c, st.cond, sk);
    EmitAdvances(c, st.body, LoopHead(c, st.cond, sk));
    WhileAdvances(c, st, sk);
  }

  /** From the condition block of a WHILE, entered for the first time or again. */
  lemma {:induction false} LoopSim(c: Ctx, w: World, st: Stmt, sk: Skel, fin: seq<VBlock>, mc: Machine<Point>, p: Point,
                                   s: Store, fuel: nat)
      returns (k: nat, q: Point)
    requires Runs(mc, w, fin) && WorldOk(c.kinds, w) && st.While? && ReturnsLastStmt(st) && EmittableStmt(c, st)
    requires Writable(sk) && Frozen(EmitStmt(c, st, sk), fin)
    requires p.b == |sk.blocks| && At(c, w, p.b, FRESH, p.v, p.m, s)
    ensures Follows(c, w, ExecStmt(c.kinds, w, st, s, fuel), mc, p, EmitStmt(c, st, sk), k, q, fuel)
    decreases fuel, st, 0
  {
    LoopFrozen(c, st, sk, fin);
    k, q := 1, p;
    if fuel > 0 {
      var (x, s1) := EvalExpr(c.kinds, w, st.cond, s);
      q := BranchSim(c, w, st.cond, FRESH, fin, mc, p.b + 1, p.b + 2, p, s);
      if x == Bool(true) {
        k, q := BodySim(c, w, st, sk, fin, mc, p, q, s1, fuel);
      }
    }
  }

  /** How a WHILE ends whose condition was just found true. */
  function AfterTrue(ks: Kinds, w: World, st: Stmt, s: Store, fuel: nat): Ending
    requires st.While? && fuel > 0
  {
    var r := ExecStmts(ks, w, st.body, s, fuel);
    if r.Normal? then ExecStmt(ks, w, st, r.s, fuel - 1) else r
  }

  /** From the branch into the body of a WHILE: the body, then the loop again. */
  lemma BodySim(c: Ctx, w: World, st: Stmt, sk: Skel, fin: seq<VBlock>, mc: Machine<Point>, p0: Point, p: Point,
                s: Store, fuel: nat)
      returns (k: nat, q: Point)
    requires Runs(mc, w, fin) && WorldOk(c.kinds, w) && st.While? && ReturnsLastStmt(st) && EmittableStmt(c, st) &&
             fuel > 0
    requires Writable(sk) && Frozen(EmitStmt(c, st, sk), fin) && LeadsTo(mc, p0, 1, p)
    requires p.b == |sk.blocks| + 1 && At(c, w, p.b, FRESH, p.v, p.m, s)
    ensures Follows(c, w, AfterTrue(c.kinds, w, st, s, fuel), mc, p0, EmitStmt(c, st, sk), k, q, fuel)
    decreases fuel, st.body, 4
  {
    LoopFrozen(c, st, sk, fin);
    var head := LoopHead(c, st.cond, sk);
    var r := ExecStmts(c.kinds, w, st.body, s, fuel);
    var k1, q1 := StmtsSim(c, w, st.body, head, fin, mc, p, s, fuel);
    if r.Normal? {
      k, q := AgainSim(c, w, st, sk, fin, mc, p, k1, q1, r.s, fuel);
      FollowsAfter(c, w, AfterTrue(c.kinds, w, st, s, fuel), mc, p0, 1, p, EmitStmt(c, st, sk), k, q, fuel - 1, fuel);
      k := 1 + k;
    } else {
      k, q := 1 + k1, q1;
      FollowsAfter(c, w, r, mc, p0, 1, p, EmitStmt(c, st, sk), k1, q1, fuel, fuel);
    }
  }

  /** From the end of the body back to the condition. */
  lemma AgainSim(c: Ctx, w: World, st: Stmt, sk: Skel, fin: seq<VBlock>, mc: Machine<Point>, p: Point, k1: nat,
                 q1: Point, s: Store, fuel: nat) returns (k: nat, q: Point)
    requires Runs(mc, w, fin) && WorldOk(c.kinds, w) && st.While? && ReturnsLastStmt(st) && EmittableStmt(c, st) &&
             fuel > 0
    requires Writable(sk) && Frozen(EmitStmt(c, st, sk), fin) && LeadsTo(mc, p, k1, q1)
    requires Here(c, w, EmitStmts(c, st.body, LoopHead(c, st.cond, sk)), q1, s)
    ensures Follows(c, w, ExecStmt(c.kinds, w, st, s, fuel - 1), mc, p, EmitStmt(c, st, sk), k, q, fuel - 1)
    decreases fuel - 1, st, 1
  {
    LoopFrozen(c, st, sk, fin);
    var n := |sk.blocks|;
    var sk1 := EmitStmts(c, st.body, LoopHead(c, st.cond, sk));
    var q2 := Jump(c, w, fin, mc, q1, CurrBlock(sk1), Br(n), s, n);
    LeadsTrans(mc, p, k1, q1, 1, q2);
    k, q := LoopSim(c, w, st, sk, fin, mc, q2, s, fuel - 1);
    FollowsAfter(c, w, ExecStmt(c.kinds, w, st, s, fuel - 1), mc, p, k1 + 1, q2, EmitStmt(c, st, sk), k, q, fuel - 1,
                 fuel - 1);
    k := k1 + 1 + k;
  }
}
