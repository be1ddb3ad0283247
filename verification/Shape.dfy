/** What emitting statements does to the control-flow graph, whatever the
    statements compute: which blocks change, and which are finished. */
module Shape {
  import opened Ir
  import opened Source
  import opened Skeleton

  predicate SameFrame(blk: VBlock, blk1: VBlock) {
    blk1.out == blk.out && blk1.term == blk.term && |blk.code| <= |blk1.code|
  }

  lemma {:induction false} ExprFrame(c: Ctx, e: Expr, b: Block, blk: VBlock)
    ensures SameFrame(blk, EmitExpr(c, e, b, blk).0)
    decreases e, 1
  {
    match e
    case Lit(_) =>
    case Read(d) => AddrFrame(c, d, b, blk);
    case Infix(op, l, r) =>
      ExprFrame(c, l, b, blk);
      ExprFrame(c, r, b, EmitExpr(c, l, b, blk).0);
    case Prefix(_, e1) => ExprFrame(c, e1, b, blk);
    case ConstAccess(e1) => ExprFrame(c, e1, b, blk);
    case FunCall(_, args) => ArgsFrame(c, args, b, blk);
    case MethodCall(recv, slot, args) =>
      AddrFrame(c, recv, b, blk);
      var (blk1, self) := EmitAddr(c, recv, b, blk);
      var (blk2, tag) := Push(b, blk1, Load(self));
      ArgsFrame(c, args, b, Push(b, blk2, SlotOf(tag, slot)).0);
    case TypeTest(recv, _) => AddrFrame(c, recv, b, blk);
    case WholeOf(d) => AddrFrame(c, d, b, blk);
  }

  lemma {:induction false} AddrFrame(c: Ctx, d: Desig, b: Block, blk: VBlock)
    ensures SameFrame(blk, EmitAddr(c, d, b, blk).0)
    decreases d, 1
  {
    match d
    case Var(_) =>
    case ResultOf(e, _) => ExprFrame(c, e, b, blk);
    case Index(base, idx, _) =>
      AddrFrame(c, base, b, blk);
      ExprFrame(c, idx, b, EmitAddr(c, base, b, blk).0);
    case Field(base, _) => AddrFrame(c, base, b, blk);
  }

  lemma {:induction false} ArgsFrame(c: Ctx, args: seq<Argument>, b: Block, blk: VBlock)
    ensures SameFrame(blk, EmitArgs(c, args, b, blk).0)
    decreases args, 0
  {
    if args != [] {
      ArgFrame(c, args[0], b, blk);
      ArgsFrame(c, args[1..], b, EmitArg(c, args[0], b, blk).0);
    }
  }

  lemma ArgFrame(c: Ctx, a: Argument, b: Block, blk: VBlock)
    ensures SameFrame(blk, EmitArg(c, a, b, blk).0)
    decreases a, 2
  {
    match a
    case ValArg(e) => ExprFrame(c, e, b, blk);
    case VarArg(d) => AddrFrame(c, d, b, blk);
  }

  lemma {:induction false} DeclsFrame(c: Ctx, ds: seq<Decl>, blk: VBlock)
    ensures AddDecls(c, ds, blk).term == blk.term
    decreases |ds|
  {
    if ds != [] { DeclsFrame(c, ds[..|ds| - 1], blk); }
  }

  lemma AssignTerm(c: Ctx, t: Desig, e: Expr, b: Block, blk: VBlock)
    ensures EmitAssign(c, t, e, b, blk).term == blk.term
  {
    ExprFrame(c, e, b, blk);
    AddrFrame(c, t, b, EmitExpr(c, e, b, blk).0);
  }

  lemma CopyFrame(c: Ctx, t: Desig, d: Desig, b: Block, blk: VBlock)
    ensures SameFrame(blk, EmitCopy(c, t, d, b, blk))
  {
    AddrFrame(c, t, b, blk);
    AddrFrame(c, d, b, EmitAddr(c, t, b, blk).0);
  }

  /** The current block exists and can take more code. */
  predicate Writable(sk: Skel) {
    sk.curr < |sk.blocks| && CurrBlock(sk).term.Open?
  }

  /** From sk to sk1 only the current block changed, blocks were added, and
      every block left behind is terminated. */
  ghost predicate Advanced(sk: Skel, sk1: Skel) {
    && |sk.blocks| <= |sk1.blocks| && sk1.curr < |sk1.blocks|
    && (sk1.curr == sk.curr || sk1.curr >= |sk.blocks|)
    && (forall b :: 0 <= b < |sk.blocks| && b != sk.curr ==> sk1.blocks[b] == sk.blocks[b])
    && (sk.curr < |sk.blocks| && sk1.curr != sk.curr ==> !sk1.blocks[sk.curr].term.Open?)
    && (forall b :: |sk.blocks| <= b < |sk1.blocks| && b != sk1.curr ==> !sk1.blocks[b].term.Open?)
  }

  lemma CondFrame(c: Ctx, e: Expr, sk: Skel)
    requires sk.curr < |sk.blocks|
    ensures var (sk1, v) := EmitCond(c, e, sk);
            && |sk1.blocks| == |sk.blocks| && sk1.curr == sk.curr
            && (forall b :: 0 <= b < |sk.blocks| && b != sk.curr ==> sk1.blocks[b] == sk.blocks[b])
            && CurrBlock(sk1).term == CurrBlock(sk).term
  {
    ExprFrame(c, e, sk.curr, CurrBlock(sk));
  }

  lemma {:induction false} EmitAdvances(c: Ctx, ss: seq<Stmt>, sk: Skel)
    requires ReturnsLast(ss) && Writable(sk)
    ensures Advanced(sk, EmitStmts(c, ss, sk))
    ensures CurrBlock(EmitStmts(c, ss, sk)).term.Open? <==> !EndsInReturn(ss)
    decreases ss, 1
  {
    if ss != [] {
      StmtAdvances(c, ss[0], sk);
      var sk1 := EmitStmt(c, ss[0], sk);
      if ss[0].Return? {
        assert ss[1..] == [];
      } else {
        EmitAdvances(c, ss[1..], sk1);
        assert EndsInReturn(ss) <==> EndsInReturn(ss[1..]);
      }
    }
  }

  /** The head of an IF: k fresh blocks, the first of them current. */
  lemma IfHeadShape(c: Ctx, cond: Expr, sk: Skel, k: nat)
    requires Writable(sk) && k >= 2
    ensures var n, sk1 := |sk.blocks|, IfHead(c, cond, sk, k);
            && |sk1.blocks| == n + k && sk1.curr == n
            && (forall b :: 0 <= b < n && b != sk.curr ==> sk1.blocks[b] == sk.blocks[b])
            && (forall b :: n <= b < n + k ==> sk1.blocks[b] == FRESH)
            && sk1.blocks[sk.curr].term.CondBr?
  {
    CondFrame(c, cond, NewBlocks(sk, k));
  }

  lemma LoopHeadShape(c: Ctx, cond: Expr, sk: Skel)
    requires Writable(sk)
    ensures var n, sk1 := |sk.blocks|, LoopHead(c, cond, sk);
            && |sk1.blocks| == n + 3 && sk1.curr == n + 1
            && (forall b :: 0 <= b < n && b != sk.curr ==> sk1.blocks[b] == sk.blocks[b])
            && (forall b :: n < b < n + 3 ==> sk1.blocks[b] == FRESH)
            && sk1.blocks[sk.curr] == sk.blocks[sk.curr].(term := Br(n))
            && sk1.blocks[n].term.CondBr?
  {
    var n := |sk.blocks|;
    CondFrame(c, cond, Enter(Terminate(NewBlocks(sk, 3), Br(n)), n));
  }

  /** Emitting an arm of an IF and branching to the block behind it. */
  lemma ArmShape(c: Ctx, ss: seq<Stmt>, sk: Skel, to: Block)
    requires ReturnsLast(ss) && Writable(sk)
    ensures var sk1 := Fall(EmitStmts(c, ss, sk), to);
            Advanced(sk, EmitStmts(c, ss, sk)) && Advanced(sk, sk1) && !CurrBlock(sk1).term.Open?
            && !sk1.blocks[sk.curr].term.Open?
    decreases ss, 2
  {
    EmitAdvances(c, ss, sk);
  }

  lemma {:induction false} StmtAdvances(c: Ctx, st: Stmt, sk: Skel)
    requires ReturnsLastStmt(st) && Writable(sk)
    ensures Advanced(sk, EmitStmt(c, st, sk))
    ensures CurrBlock(EmitStmt(c, st, sk)).term.Open? <==> !st.Return?
    ensures st.If? || st.While? ==> CurrBlock(EmitStmt(c, st, sk)) == FRESH
    decreases st, 2
  {
    var n := |sk.blocks|;
    match st
    case Assign(t, e) => AssignTerm(c, t, e, sk.curr, CurrBlock(sk));
    case AssignWhole(t, d) => CopyFrame(c, t, d, sk.curr, CurrBlock(sk));
    case CallStmt(e) => ExprFrame(c, e, sk.curr, CurrBlock(sk));
    case Return(e) => if e.Some? { CondFrame(c, e.value, sk); }
    case If(cond, thn, els) => if els == [] { IfAdvances(c, st, sk); } else { IfElseAdvances(c, st, sk); }
    case While(_, _) => WhileAdvances(c, st, sk);
  }

  lemma IfAdvances(c: Ctx, st: Stmt, sk: Skel)
    requires st.If? && st.els == [] && ReturnsLastStmt(st) && Writable(sk)
    ensures Advanced(sk, EmitStmt(c, st, sk)) && CurrBlock(EmitStmt(c, st, sk)) == FRESH
    decreases st, 0
  {
    IfHeadShape(c, st.cond, sk, 2);
    ArmShape(c, st.thn, IfHead(c, st.cond, sk, 2), |sk.blocks| + 1);
  }

  /** The graph once the first arm of an IF with ELSE is emitted. */
  function ElseHead(c: Ctx, st: Stmt, sk: Skel): Skel
    requires st.If?
  {
    var n := |sk.blocks|;
    Enter(Fall(EmitStmts(c, st.thn, IfHead(c, st.cond, sk, 3)), n + 2), n + 1)
  }

  lemma ElseHeadShape(c: Ctx, st: Stmt, sk: Skel)
    requires st.If? && st.els != [] && ReturnsLastStmt(st) && Writable(sk)
    ensures var n, sk1 := |sk.blocks|, ElseHead(c, st, sk);
            && n + 3 <= |sk1.blocks| && sk1.curr == n + 1
            && (forall b :: 0 <= b < n && b != sk.curr ==> sk1.blocks[b] == sk.blocks[b])
            && sk1.blocks[n + 1] == FRESH && sk1.blocks[n + 2] == FRESH
            && !sk1.blocks[sk.curr].term.Open?
            && (forall b :: n <= b < |sk1.blocks| && b != n + 1 && b != n + 2 ==> !sk1.blocks[b].term.Open?)
    decreases st, 0
  {
    IfHeadShape(c, st.cond, sk, 3);
    ArmShape(c, st.thn, IfHead(c, st.cond, sk, 3), |sk.blocks| + 2);
  }

  lemma IfElseAdvances(c: Ctx, st: Stmt, sk: Skel)
    requires st.If? && st.els != [] && ReturnsLastStmt(st) && Writable(sk)
    ensures Advanced(sk, EmitStmt(c, st, sk)) && CurrBlock(EmitStmt(c, st, sk)) == FRESH
    decreases st, 1
  {
    ElseHeadShape(c, st, sk);
    ArmShape(c, st.els, ElseHead(c, st, sk), |sk.blocks| + 2);
  }

  lemma WhileAdvances(c: Ctx, st: Stmt, sk: Skel)
    requires st.While? && ReturnsLastStmt(st) && Writable(sk)
    ensures Advanced(sk, EmitStmt(c, st, sk)) && CurrBlock(EmitStmt(c, st, sk)) == FRESH
    decreases st, 0
  {
    LoopHeadShape(c, st.cond, sk);
    EmitAdvances(c, st.body, LoopHead(c, st.cond, sk));
  }
}
