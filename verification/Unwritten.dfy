/** Variables the body of a procedure never sets: what their uses see, and when
    they keep a phi, in the code emitted for the procedure. */
module Unwritten {
  import opened Ir
  import opened Source
  import opened Skeleton
  import opened Shape
  import opened SsaState
  import opened SsaCode
  import opened Loops
  import opened Sources
  import opened Prescan
  import opened Correctness

  // ----- statements that do not set a variable -----

  /** Some assignment in ss gives d a value outside memory. */
  predicate Sets(c: Ctx, ss: seq<Stmt>, d: Decl)
    decreases ss, 1
  {
    ss != [] && (SetsIn(c, ss[0], d) || Sets(c, ss[1..], d))
  }

  predicate SetsIn(c: Ctx, st: Stmt, d: Decl)
    decreases st, 0
  {
    match st
    case Assign(t, _) => t == Var(d) && IsSsa(c, d)
    case If(_, thn, els) => Sets(c, thn, d) || Sets(c, els, d)
    case While(_, body) => Sets(c, body, d)
    case _ => false
  }

  /** What block b leaves in d. */
  function Left(sk: Skel, b: Block, d: Decl): Option<Value> {
    if b < |sk.blocks| && d in sk.blocks[b].out then Some(sk.blocks[b].out[d]) else None
  }

  ghost predicate LeavesAlone(sk: Skel, sk1: Skel, d: Decl) {
    forall b: Block :: Left(sk1, b, d) == Left(sk, b, d)
  }

  lemma StepsLeaveAlone(sk: Skel, n: nat, b: Block, t: Term<Value>, d: Decl)
    ensures LeavesAlone(sk, NewBlocks(sk, n), d) && LeavesAlone(sk, Enter(sk, b), d)
    ensures LeavesAlone(sk, Terminate(sk, t), d) && LeavesAlone(sk, Fall(sk, b), d)
  {
    var sk1 := NewBlocks(sk, n);
    forall x: Block ensures Left(sk1, x, d) == Left(sk, x, d) {
      if |sk.blocks| <= x < |sk1.blocks| { assert sk1.blocks[x] == FRESH; }
    }
  }

  lemma CondLeavesAlone(c: Ctx, e: Expr, sk: Skel, d: Decl)
    ensures LeavesAlone(sk, EmitCond(c, e, sk).0, d)
  {
    ExprFrame(c, e, sk.curr, CurrBlock(sk));
  }

  lemma BlockLeavesAlone(sk: Skel, blk: VBlock, d: Decl)
    requires d in blk.out <==> d in CurrBlock(sk).out
    requires d in blk.out ==> blk.out[d] == CurrBlock(sk).out[d]
    ensures LeavesAlone(sk, SetBlock(sk, blk), d)
  {
  }

  lemma IfHeadLeavesAlone(c: Ctx, cond: Expr, sk: Skel, k: nat, d: Decl)
    ensures LeavesAlone(sk, IfHead(c, cond, sk, k), d)
  {
    var n := |sk.blocks|;
    var sk0 := NewBlocks(sk, k);
    var (sk1, v) := EmitCond(c, cond, sk0);
    var sk2 := Terminate(sk1, CondBr(v, n, n + 1));
    StepsLeaveAlone(sk, k, n, Open, d);
    CondLeavesAlone(c, cond, sk0, d);
    StepsLeaveAlone(sk1, 0, n, CondBr(v, n, n + 1), d);
    StepsLeaveAlone(sk2, 0, n, Open, d);
  }

  lemma LoopHeadLeavesAlone(c: Ctx, cond: Expr, sk: Skel, d: Decl)
    ensures LeavesAlone(sk, LoopHead(c, cond, sk), d)
  {
    var n := |sk.blocks|;
    var sk0 := NewBlocks(sk, 3);
    var sk1 := Terminate(sk0, Br(n));
    var (sk2, v) := EmitCond(c, cond, Enter(sk1, n));
    var sk3 := Terminate(sk2, CondBr(v, n + 1, n + 2));
    StepsLeaveAlone(sk, 3, n, Open, d);
    StepsLeaveAlone(sk0, 0, n, Br(n), d);
    StepsLeaveAlone(sk1, 0, n, Open, d);
    CondLeavesAlone(c, cond, Enter(sk1, n), d);
    StepsLeaveAlone(sk2, 0, n, CondBr(v, n + 1, n + 2), d);
    StepsLeaveAlone(sk3, 0, n + 1, Open, d);
  }

  lemma {:induction false} StmtsLeaveAlone(c: Ctx, ss: seq<Stmt>, sk: Skel, d: Decl)
    requires !Sets(c, ss, d)
    ensures LeavesAlone(sk, EmitStmts(c, ss, sk), d)
    decreases ss, 1
  {
    if ss != [] {
      StmtLeavesAlone(c, ss[0], sk, d);
      StmtsLeaveAlone(c, ss[1..], EmitStmt(c, ss[0], sk), d);
    }
  }

  /** An arm, and what follows it. */
  lemma {:induction false} ArmLeavesAlone(c: Ctx, ss: seq<Stmt>, sk: Skel, to: Block, next: Block, d: Decl)
    requires !Sets(c, ss, d)
    ensures LeavesAlone(sk, Enter(Fall(EmitStmts(c, ss, sk), to), next), d)
    decreases ss, 2
  {
    var sk1 := EmitStmts(c, ss, sk);
    StmtsLeaveAlone(c, ss, sk, d);
    StepsLeaveAlone(sk1, 0, to, Open, d);
    StepsLeaveAlone(Fall(sk1, to), 0, next, Open, d);
  }

  lemma {:induction false} StmtLeavesAlone(c: Ctx, st: Stmt, sk: Skel, d: Decl)
    requires !SetsIn(c, st, d)
    ensures LeavesAlone(sk, EmitStmt(c, st, sk), d)
    decreases st, 0
  {
    var n := |sk.blocks|;
    match st
    case Assign(t, e) =>
      ExprFrame(c, e, sk.curr, CurrBlock(sk));
      AddrFrame(c, t, sk.curr, EmitExpr(c, e, sk.curr, CurrBlock(sk)).0);
      BlockLeavesAlone(sk, EmitAssign(c, t, e, sk.curr, CurrBlock(sk)), d);
    case AssignWhole(t, source) =>
      CopyFrame(c, t, source, sk.curr, CurrBlock(sk));
      BlockLeavesAlone(sk, EmitCopy(c, t, source, sk.curr, CurrBlock(sk)), d);
    case CallStmt(e) => CondLeavesAlone(c, e, sk, d);
    case Return(e) =>
      if e.Some? {
        CondLeavesAlone(c, e.value, sk, d);
        var (sk1, v) := EmitCond(c, e.value, sk);
        StepsLeaveAlone(sk1, 0, 0, Ret(v), d);
      } else {
        StepsLeaveAlone(sk, 0, 0, RetVoid, d);
      }
    case If(cond, thn, els) =>
      if els == [] {
        IfHeadLeavesAlone(c, cond, sk, 2, d);
        ArmLeavesAlone(c, thn, IfHead(c, cond, sk, 2), n + 1, n + 1, d);
      } else {
        IfHeadLeavesAlone(c, cond, sk, 3, d);
        ArmLeavesAlone(c, thn, IfHead(c, cond, sk, 3), n + 2, n + 1, d);
        ArmLeavesAlone(c, els, ElseHead(c, st, sk), n + 2, n + 2, d);
      }
    case While(cond, body) =>
      var sk1 := LoopHead(c, cond, sk);
      var sk2 := EmitStmts(c, body, sk1);
      LoopHeadLeavesAlone(c, cond, sk, d);
      StmtsLeaveAlone(c, body, sk1, d);
      StepsLeaveAlone(sk2, 0, n, Br(n), d);
      StepsLeaveAlone(Terminate(sk2, Br(n)), 0, n + 2, Open, d);
  }

  // ----- emitted procedures -----

  /** Declaring d gives it a value outside memory: parameters, and addresses of
      aggregates. */
  predicate Bound(c: Ctx, d: Decl) {
    match KindOf(c.kinds, d)
    case VarParam => true
    case AggregateLocal(_) => true
    case AggregateParam => true
    case ScalarParam => d !in c.promoted
    case _ => false
  }

  predicate HasStart(c: Ctx, p: Proc, d: Decl) {
    (d in p.params || d in p.locals) && Bound(c, d)
  }

  function StartValue(c: Ctx, d: Decl): Value {
    if IsAggregate(c.kinds, d) then SlotAddr(d) else Arg(d)
  }

  lemma {:induction false} DeclsBind(c: Ctx, ds: seq<Decl>, blk: VBlock, d: Decl)
    requires d in blk.out ==> blk.out[d] == StartValue(c, d)
    ensures var out := AddDecls(c, ds, blk).out;
            && (d in out ==> out[d] == StartValue(c, d))
            && (d in blk.out ==> d in out)
            && (d in ds && Bound(c, d) ==> d in out)
    decreases |ds|
  {
    if ds != [] {
      var n := |ds| - 1;
      DeclsBind(c, ds[..n], blk, d);
      assert ds == ds[..n] + [ds[n]];
    }
  }

  /** The graph of a procedure that does not set d: only block 0 has d, if any. */
  lemma GraphLeavesAlone(c: Ctx, p: Proc, d: Decl)
    requires !Sets(c, p.body, d)
    ensures var g := EmitProc(c, p).blocks;
            && (forall b: Block :: 0 < b < |g| ==> d !in g[b].out)
            && (HasStart(c, p, d) && 0 < |g| ==> d in g[0].out && g[0].out[d] == StartValue(c, d))
  {
    var first := AddDecls(c, p.params, FRESH);
    var sk := Skel([AddDecls(c, p.locals, first)], 0);
    var sk1 := EmitStmts(c, p.body, sk);
    DeclsBind(c, p.params, FRESH, d);
    DeclsBind(c, p.locals, first, d);
    StmtsLeaveAlone(c, p.body, sk, d);
    StepsLeaveAlone(sk1, 0, 0, RetVoid, d);
    var g := EmitProc(c, p);
    assert LeavesAlone(sk, g, d);
    assert Left(g, 0, d) == Left(sk, 0, d);
    forall b: Block | 0 < b < |g.blocks| ensures d !in g.blocks[b].out {
      assert Left(g, b, d) == Left(sk, b, d);
    }
  }

  lemma EmissionUnset(c: Ctx, p: Proc, s: Ssa, f: Program, d: Decl)
    requires IsEmission(c, p, s, f) && !Sets(c, p.body, d)
    ensures Unset(s, d)
    ensures HasStart(c, p, d) ==> Starts(s, d, StartValue(c, d))
  {
    GraphLeavesAlone(c, p, d);
    forall u: Block {:trigger Edge(s.blk, u, 0)} ensures !Edge(s.blk, u, 0) {
      if Edge(s.blk, u, 0) { var i := EdgeIndex(s, u, 0); }
    }
  }

  lemma EmissionOrder(c: Ctx, p: Proc, s: Ssa, f: Program) returns (ord: Order)
    requires IsEmission(c, p, s, f) && ReturnsLast(p.body)
    ensures Reducible(s.blk, ord, NoDeadJoin(p.body))
  {
    DeclsFrame(c, p.params, FRESH);
    DeclsFrame(c, p.locals, AddDecls(c, p.params, FRESH));
    ord := ProcReducible(c, p);
  }

  /** Where every join can be reached, a variable the body never sets keeps no
      phi, and every read of it gives what block 0 leaves in it. */
  lemma UnsetNeedsNoPhi(c: Ctx, p: Proc, s: Ssa, f: Program, d: Decl)
    requires IsEmission(c, p, s, f) && ReturnsLast(p.body) && NoDeadJoin(p.body) && !Sets(c, p.body, d)
    ensures forall k: Key :: k in s.phis ==> k.decl != d
    ensures forall b: Block :: HasDef(s, Key(b, d)) ==>
            HasDef(s, Key(0, d)) && DefVal(s, Key(b, d)) == DefVal(s, Key(0, d))
  {
    EmissionUnset(c, p, s, f, d);
    var ord := EmissionOrder(c, p, s, f);
    var v := if HasDef(s, Key(0, d)) then At(s, 0, d) else Const(Undefined);
    if HasDef(s, Key(0, d)) { EntryIsNoPhi(s, d); }
    var a := set b: Block | b < |s.blk| && HasDef(s, Key(b, d));
    AllFromEntry(s, ord, d, a, v);
    NoPhi(s, ord, d, a, v);
    forall k: Key | k in s.phis ensures k.decl != d {
      assert PhiOk(s, k) && InOk(s, k);
      assert !IsPhiOf(s, ord, d, a, k);
    }
    forall b: Block | HasDef(s, Key(b, d))
      ensures HasDef(s, Key(0, d)) && DefVal(s, Key(b, d)) == DefVal(s, Key(0, d)) {
      OneValue(s, ord, d, a, v, b);
      FedFromEntry(s, ord, d, b);
    }
  }

  lemma EntryIsNoPhi(s: Ssa, d: Decl)
    requires Unset(s, d) && HasDef(s, Key(0, d))
    ensures !At(s, 0, d).PhiRef?
  {
    assert ClosedBlock(s.ins, 0, s.blk[0]);
    if d in s.blk[0].out {
      var v := s.blk[0].out[d];
      assert ClosedV(s.ins, 0, |s.blk[0].code|, v);
      if v.Entry? { NothingFlowsIn(s, Key(0, v.decl)); }
    } else {
      NothingFlowsIn(s, Key(0, d));
    }
  }

  lemma AllFromEntry(s: Ssa, ord: Order, d: Decl, a: set<Block>, v: Value)
    requires Unset(s, d) && Reducible(s.blk, ord, true) && !v.PhiRef?
    requires forall b: Block :: b in a <==> b < |s.blk| && HasDef(s, Key(b, d))
    requires HasDef(s, Key(0, d)) ==> At(s, 0, d) == v
    ensures SetAtEntry(s, ord, d, a, v)
  {
    forall b: Block | b in a ensures b in ord && FromEntry(s, ord, d, a, v, b) {
      if b != 0 {
        assert FedOk(s.blk, ord, |s.blk|, true, b);
        forall u: Block | Edge(s.blk, u, b) ensures u in a { KeyOverEdge(s, Key(b, d), u); }
      }
    }
  }

  /** Asked for anywhere, d was asked for in block 0. */
  lemma {:induction false} FedFromEntry(s: Ssa, ord: Order, d: Decl, b: Block)
    requires Unset(s, d) && Reducible(s.blk, ord, true) && b in ord && HasDef(s, Key(b, d))
    ensures HasDef(s, Key(0, d))
    decreases ord[b]
  {
    if b != 0 {
      assert FedOk(s.blk, ord, |s.blk|, true, b);
      var u: Block :| u in ord && Edge(s.blk, u, b) && ord[u] < ord[b];
      KeyOverEdge(s, Key(b, d), u);
      FedFromEntry(s, ord, d, u);
    }
  }

  /** Whatever the joins: every use of such a variable is its start value in the
      SSA code exactly if the graph has no walk to a use of it from a block without
      incoming edges on which no block gives it a value. */
  lemma UnsetHasOneValueIff(c: Ctx, p: Proc, s: Ssa, f: Program, d: Decl)
    requires IsEmission(c, p, s, f) && ReturnsLast(p.body) && !Sets(c, p.body, d) && HasStart(c, p, d)
    ensures var g := EmitProc(c, p).blocks;
            (forall b: Block :: b < |g| && Uses(g[b], d) ==> Subst(s.ins, b, Entry(d)) == StartValue(c, d))
            <==> !exists w :: Unbound(g, d, w)
  {
    EmissionUnset(c, p, s, f, d);
    var ord := EmissionOrder(c, p, s, f);
    UsesSeeIff(s, ord, d, StartValue(c, d), NoDeadJoin(p.body));
  }

  /** A phi of such a variable stands where control can reach and the variable is
      still used, exactly if there is such a block to which a dead one leads, too;
      any other phi of it has a dead block before it as well. */
  lemma UnsetKeepsPhiIff(c: Ctx, p: Proc, s: Ssa, f: Program, d: Decl)
    requires IsEmission(c, p, s, f) && ReturnsLast(p.body) && !Sets(c, p.body, d) && HasStart(c, p, d)
    ensures var g := EmitProc(c, p).blocks;
            && ((exists b: Block :: LivePhi(s, d, b)) <==> (exists b: Block :: Mixed(g, d, b)))
            && (forall k: Key :: k in s.phis && k.decl == d ==> BehindDead(g, k.block))
  {
    EmissionUnset(c, p, s, f, d);
    var ord := EmissionOrder(c, p, s, f);
    PhiSurvivesIff(s, ord, d, StartValue(c, d), NoDeadJoin(p.body));
    forall k: Key | k in s.phis && k.decl == d ensures BehindDead(s.blk, k.block) {
      PhiIsBehindDead(s, ord, d, StartValue(c, d), k, NoDeadJoin(p.body));
    }
  }

  /** A parameter the body only reads, and a loop whose body always returns:
      the block behind the inner IF is dead but branches back to the condition. */
  const READ_ONLY: Proc :=
    var arms := [Return(None)];
    Proc([0], [], map[0 := ScalarParam], [While(Read(Var(0)), [If(Read(Var(0)), arms, arms)])])

  const DEAD_JOIN: seq<VBlock> :=
    [VBlock([], map[0 := Arg(0)], Br(1)), VBlock([], map[], CondBr(Entry(0), 2, 3)),
     VBlock([], map[], CondBr(Entry(0), 4, 5)), VBlock([], map[], RetVoid), VBlock([], map[], RetVoid),
     VBlock([], map[], RetVoid), VBlock([], map[], Br(1))]

  lemma DeadJoinGraph()
    ensures EmitProc(Ctx(READ_ONLY.kinds, {}), READ_ONLY).blocks == DEAD_JOIN
  {
    var c := Ctx(READ_ONLY.kinds, {});
    var entry := VBlock([], map[0 := Arg(0)], Open);
    assert AddDecls(c, [0], FRESH) == entry by { assert [0][..0] == []; }
    assert AddDecls(c, [], entry) == entry;
    var sk := Skel([entry], 0);
    var loop := READ_ONLY.body[0];
    var choice := loop.body[0];
    var x := Entry(0);
    var head := LoopHead(c, loop.cond, sk);
    assert head == Skel([entry.(term := Br(1)), FRESH.(term := CondBr(x, 2, 3)), FRESH, FRESH], 2);
    var head1 := IfHead(c, choice.cond, head, 3);
    assert head1 == Skel(head.blocks[2 := FRESH.(term := CondBr(x, 4, 5))] + [FRESH, FRESH, FRESH], 4);
    var sk1 := EmitStmts(c, choice.thn, head1);
    assert choice.thn[1..] == [];
    assert sk1 == Terminate(head1, RetVoid);
    var sk2 := EmitStmts(c, choice.els, Enter(sk1, 5));
    assert sk2 == Terminate(Enter(sk1, 5), RetVoid);
    var sk3 := EmitStmt(c, choice, head);
    assert sk3 == Enter(sk2, 6);
    assert loop.body[1..] == [];
    assert EmitStmts(c, loop.body, head) == sk3;
    var sk4 := EmitStmt(c, loop, sk);
    assert sk4 == Enter(Terminate(sk3, Br(1)), 3);
    assert READ_ONLY.body[1..] == [];
    assert EmitStmts(c, READ_ONLY.body, sk) == sk4;
  }

  /** Sema and the scan accept it. */
  lemma DeadJoinIsLegal()
    ensures Accepted(READ_ONLY) && NotedStmts(READ_ONLY.kinds, READ_ONLY.body, false) == {}
    ensures !Sets(Ctx(READ_ONLY.kinds, {}), READ_ONLY.body, 0) && HasStart(Ctx(READ_ONLY.kinds, {}), READ_ONLY, 0)
  {
    var ks := READ_ONLY.kinds;
    var c := Ctx(ks, {});
    var loop := READ_ONLY.body[0];
    var choice := loop.body[0];
    assert READ_ONLY.body[1..] == [] && loop.body[1..] == [] && choice.thn[1..] == [];
    assert ReturnsLast(choice.thn) && !Sets(c, choice.thn, 0) && TypedStmts(ks, choice.thn);
    assert NotedStmts(ks, choice.thn, false) == {} && NotedStmts(ks, choice.thn, true) == {};
    assert ReturnsLast(loop.body) && !Sets(c, loop.body, 0) && TypedStmts(ks, loop.body);
    assert NotedStmts(ks, loop.body, false) == {} && NotedStmts(ks, loop.body, true) == {};
  }

  /** Dead joins matter: this parameter, never assigned, keeps a phi at the loop
      condition, and what the condition tests is not the parameter. */
  lemma DeadJoinKeepsPhi(s: Ssa, f: Program)
    requires IsEmission(Ctx(READ_ONLY.kinds, {}), READ_ONLY, s, f)
    ensures Mixed(s.blk, 0, 1) && LivePhi(s, 0, 1) && Subst(s.ins, 1, Entry(0)) == PhiRef(Key(1, 0))
  {
    DeadJoinEmitted(s, f);
    EdgesOfExample();
    UseIsAsked(s, 1, 0);
    Meeting(s);
  }

  lemma DeadJoinEmitted(s: Ssa, f: Program)
    requires IsEmission(Ctx(READ_ONLY.kinds, {}), READ_ONLY, s, f)
    ensures s.blk == DEAD_JOIN && Unset(s, 0)
  {
    DeadJoinGraph();
    assert !Sets(Ctx(READ_ONLY.kinds, {}), READ_ONLY.body, 0) by { DeadJoinIsLegal(); }
    EmissionUnset(Ctx(READ_ONLY.kinds, {}), READ_ONLY, s, f, 0);
  }

  lemma EdgesOfExample()
    ensures var g := DEAD_JOIN; |g| == 7 && g[0].out == map[0 := Arg(0)] && Edge(g, 0, 1) && Edge(g, 6, 1)
    ensures var g := DEAD_JOIN; DeadRoot(g, 6) && Uses(g[1], 0) && Mixed(g, 0, 1)
  {
    var g := DEAD_JOIN;
    ReachesItself(g, 1);
    ReachesItself(g, 0);
    ReachesItself(g, 6);
    ReachesOn(g, 0, 0, 1);
    ReachesOn(g, 6, 6, 1);
  }

  lemma Meeting(s: Ssa)
    requires Unset(s, 0) && |s.blk| > 6 && s.blk[0].out == map[0 := Arg(0)] && Key(1, 0) in s.ins
    requires Edge(s.blk, 0, 1) && Edge(s.blk, 6, 1) && NoEdgeInto(s.blk, 6)
    ensures Key(1, 0) in s.phis && s.ins[Key(1, 0)] == PhiRef(Key(1, 0))
  {
    var k := Key(1, 0);
    assert InOk(s, k);
    if k !in s.phis {
      SameOverEdge(s, k, 0);
      SameOverEdge(s, k, 6);
      NothingFlowsIn(s, Key(6, 0));
    }
  }
}
