/** The steps of the emitter on the SSA state and the function under
    construction together: appending code, defining a variable, branching,
    creating and entering blocks. */
module SsaEmit {
  import opened Ir
  import opened Source
  import opened Skeleton
  import opened Shape
  import opened SsaState
  import opened SsaSteps
  import opened SsaCode
  import opened SsaReads

  /** s1 is s with block b's code replaced by blk, and more variables asked for. */
  ghost predicate CodePost(s: Ssa, s1: Ssa, b: Block, blk: VBlock) {
    && b < |s.blk| && s1.blk == s.blk[b := blk]
    && s1.preds == s.preds && s1.rank == s.rank && s1.closed == s.closed
    && (forall k :: k in s.ins ==> k in s1.ins && s1.ins[k] == s.ins[k])
  }

  lemma CodePostTrans(a: Ssa, s: Ssa, s1: Ssa, b: Block, blk: VBlock, blk1: VBlock)
    requires CodePost(a, s, b, blk) && CodePost(s, s1, b, blk1)
    ensures CodePost(a, s1, b, blk1)
  {
    assert s1.blk == a.blk[b := blk1];
  }

  /** An operand once closed stays closed and keeps its SSA form. */
  lemma OperandKept(s: Ssa, s1: Ssa, b: Block, n: nat, n1: nat, v: Value)
    requires ClosedV(s.ins, b, n, v) && n <= n1
    requires forall k :: k in s.ins ==> k in s1.ins && s1.ins[k] == s.ins[k]
    ensures ClosedV(s1.ins, b, n1, v) && Subst(s1.ins, b, v) == Subst(s.ins, b, v)
  {
  }

  lemma ReadIsCode(s: Ssa, s1: Ssa, b: Block, d: Decl)
    requires ReadPost(s, s1, d) && b < |s.blk|
    ensures CodePost(s, s1, b, s.blk[b])
  {
    assert s.blk[b := s.blk[b]] == s.blk;
  }

  // ----- code -----

  function AppendCode(f: Program, b: Block, i: Instr<Value>): Program
    requires b < |f.blocks|
  {
    f.(blocks := f.blocks[b := f.blocks[b].(code := f.blocks[b].code + [i])])
  }

  lemma DefsSameOut(s: Ssa, s1: Ssa, defs: map<Key, Value>)
    requires DefsOk(s, defs) && s1.ins == s.ins && |s1.blk| == |s.blk|
    requires forall b :: 0 <= b < |s.blk| ==> s1.blk[b].out == s.blk[b].out
    ensures DefsOk(s1, defs)
  {
    forall k: Key ensures HasDef(s1, k) <==> HasDef(s, k) {}
  }

  lemma PushHolds(s: Ssa, f: Program, def: CurrentDef, b: Block, i: Instr<Value>)
    requires Holds(s, f, def) && b in s.rank && b < |s.blk| && s.blk[b].term.Open?
    requires ClosedI(s.ins, b, |s.blk[b].code|, i)
    ensures var s1 := SetCode(s, b, Push(b, s.blk[b], i).0);
            Holds(s1, AppendCode(f, b, SubstI(s.ins, b, i)), def)
            && CodePost(s, s1, b, Push(b, s.blk[b], i).0)
            && (Minimal(s, {}) ==> Minimal(s1, {}))
  {
    var blk1 := Push(b, s.blk[b], i).0;
    var s1 := SetCode(s, b, blk1);
    assert ClosedBlock(s.ins, b, s.blk[b]);
    PushClosed(s.ins, b, s.blk[b], i);
    SetCodeKeepsInv(s, b, blk1);
    PushCode(s, f, b, i);
    DefsSameOut(s, s1, def.defs);
  }

  lemma PushClosed(ins: map<Key, Value>, b: Block, blk: VBlock, i: Instr<Value>)
    requires ClosedBlock(ins, b, blk) && ClosedI(ins, b, |blk.code|, i) && blk.term.Open?
    ensures ClosedBlock(ins, b, Push(b, blk, i).0)
  {
    var blk1 := Push(b, blk, i).0;
    forall j | 0 <= j < |blk1.code| ensures ClosedI(ins, b, j, blk1.code[j]) {
      if j < |blk.code| { assert ClosedI(ins, b, j, blk.code[j]); }
    }
  }

  lemma PushCode(s: Ssa, f: Program, b: Block, i: Instr<Value>)
    requires |s.blk| == |s.preds| && IsCodeOf(s, f.blocks) && b < |s.blk|
    ensures IsCodeOf(SetCode(s, b, Push(b, s.blk[b], i).0), AppendCode(f, b, SubstI(s.ins, b, i)).blocks)
  {
    var s1 := SetCode(s, b, Push(b, s.blk[b], i).0);
    var f1 := AppendCode(f, b, SubstI(s.ins, b, i));
    forall x | 0 <= x < |f1.blocks| ensures f1.blocks[x] == BlockOf(s1, x) {
      assert f.blocks[x] == BlockOf(s, x);
      if x == b {
        assert f1.blocks[b].code == SubstCode(s.ins, b, s1.blk[b].code);
      }
    }
  }

  // ----- a variable's new value -----

  lemma SetVarHolds(s: Ssa, f: Program, def: CurrentDef, b: Block, d: Decl, v: Value)
    requires Holds(s, f, def) && b in s.rank && b < |s.blk| && s.blk[b].term.Open?
    requires ClosedV(s.ins, b, |s.blk[b].code|, v)
    ensures var blk1 := s.blk[b].(out := s.blk[b].out[d := v]);
            var s1 := SetCode(s, b, blk1);
            Holds(s1, f, def.(defs := def.defs[Key(b, d) := Subst(s.ins, b, v)]))
            && CodePost(s, s1, b, blk1) && (Minimal(s, {}) ==> Minimal(s1, {}))
  {
    var blk1 := s.blk[b].(out := s.blk[b].out[d := v]);
    var s1 := SetCode(s, b, blk1);
    assert ClosedBlock(s.ins, b, s.blk[b]);
    assert ClosedBlock(s.ins, b, blk1) by {
      forall j | 0 <= j < |blk1.code| ensures ClosedI(s.ins, b, j, blk1.code[j]) {
        assert ClosedI(s.ins, b, j, s.blk[b].code[j]);
      }
    }
    SetCodeKeepsInv(s, b, blk1);
    forall x | 0 <= x < |f.blocks| ensures f.blocks[x] == BlockOf(s1, x) {
      assert f.blocks[x] == BlockOf(s, x);
    }
    DefsSetVar(s, def.defs, b, d, v);
  }

  lemma DefsSetVar(s: Ssa, defs: map<Key, Value>, b: Block, d: Decl, v: Value)
    requires DefsOk(s, defs) && b < |s.blk|
    ensures DefsOk(SetCode(s, b, s.blk[b].(out := s.blk[b].out[d := v])), defs[Key(b, d) := Subst(s.ins, b, v)])
  {
    var s1 := SetCode(s, b, s.blk[b].(out := s.blk[b].out[d := v]));
    forall k: Key | k != Key(b, d) ensures HasDef(s1, k) <==> HasDef(s, k) {}
    forall k: Key | k != Key(b, d) && HasDef(s, k) ensures DefVal(s1, k) == DefVal(s, k) {}
  }

  // ----- branches -----

  function AddPredBlock(bs: seq<BasicBlock>, b: Block, to: Block): seq<BasicBlock> {
    if to < |bs| then bs[to := bs[to].(preds := bs[to].preds + [b])] else bs
  }

  /** CreateBr and its kin: the terminator, and the edges it adds. */
  function BranchCode(f: Program, b: Block, t: Term<Value>): Program
    requires b < |f.blocks|
  {
    var bs := f.blocks[b := f.blocks[b].(term := t)];
    f.(blocks := match t
       case Br(x) => AddPredBlock(bs, b, x)
       case CondBr(_, yes, no) => AddPredBlock(AddPredBlock(bs, b, yes), b, no)
       case _ => bs)
  }

  lemma BranchHolds(s: Ssa, f: Program, def: CurrentDef, b: Block, t: Term<Value>)
    requires Holds(s, f, def) && b in s.rank && b < |s.blk| && s.blk[b].term.Open?
    requires ClosedT(s.ins, b, |s.blk[b].code|, t) && TargetsOk(s, t)
    ensures Holds(SetTerm(s, b, t), BranchCode(f, b, SubstT(s.ins, b, t)), def)
    ensures Minimal(s, {}) ==> Minimal(SetTerm(s, b, t), {})
  {
    SetTermKeepsInv(s, b, t);
    BranchIsCode(s, f, b, t);
    DefsSameOut(s, SetTerm(s, b, t), def.defs);
  }

  lemma BranchIsCode(s: Ssa, f: Program, b: Block, t: Term<Value>)
    requires |s.blk| == |s.preds| && IsCodeOf(s, f.blocks) && b < |s.blk|
    ensures |SetTerm(s, b, t).preds| == |s.preds|
    ensures IsCodeOf(SetTerm(s, b, t), BranchCode(f, b, SubstT(s.ins, b, t)).blocks)
  {
    var s1 := SetTerm(s, b, t);
    var f1 := BranchCode(f, b, SubstT(s.ins, b, t));
    forall x | 0 <= x < |f1.blocks| ensures f1.blocks[x] == BlockOf(s1, x) {
      assert f.blocks[x] == BlockOf(s, x);
    }
  }

  // ----- blocks -----

  function AddBlocksCode(f: Program, n: nat): Program {
    f.(blocks := f.blocks + seq(n, _ => BasicBlock([], Open, [])))
  }

  lemma AddBlocksHolds(s: Ssa, f: Program, def: CurrentDef, n: nat)
    requires Holds(s, f, def)
    ensures Holds(AddBlocks(s, n), AddBlocksCode(f, n), def)
    ensures Minimal(s, {}) ==> Minimal(AddBlocks(s, n), {})
  {
    AddBlocksKeepsInv(s, n);
    var s1, f1 := AddBlocks(s, n), AddBlocksCode(f, n);
    forall x | 0 <= x < |f1.blocks| ensures f1.blocks[x] == BlockOf(s1, x) {
      if x < |f.blocks| { assert f.blocks[x] == BlockOf(s, x); }
    }
    forall k: Key ensures HasDef(s1, k) <==> HasDef(s, k) {
      if k in s.ins { assert InOk(s, k); }
    }
    forall k: Key | HasDef(s, k) ensures DefVal(s1, k) == DefVal(s, k) {}
  }

  lemma EnterHolds(s: Ssa, f: Program, def: CurrentDef, b: Block)
    requires Holds(s, f, def) && b < |s.blk| && b !in s.rank
    ensures Holds(EnterBlock(s, b), f, def)
    ensures Minimal(s, {}) ==> Minimal(EnterBlock(s, b), {})
  {
    EnterKeepsInv(s, b);
    var s1 := EnterBlock(s, b);
    forall x | 0 <= x < |f.blocks| ensures f.blocks[x] == BlockOf(s1, x) {
      assert f.blocks[x] == BlockOf(s, x);
    }
    DefsSameOut(s, s1, def.defs);
  }

  // ----- what emitting an expression leaves -----

  /** The emitter appended code up to r.0 and returned v, the SSA form of r.1. */
  ghost predicate Emitted(s: Ssa, s1: Ssa, b: Block, r: (VBlock, Value), v: Value) {
    && CodePost(s, s1, b, r.0)
    && ClosedV(s1.ins, b, |r.0.code|, r.1) && v == Subst(s1.ins, b, r.1)
  }

  /** An earlier result is still good after more code. */
  lemma EmittedThen(a: Ssa, s: Ssa, s1: Ssa, b: Block, r: (VBlock, Value), v: Value, blk1: VBlock)
    requires Emitted(a, s, b, r, v) && CodePost(s, s1, b, blk1) && |r.0.code| <= |blk1.code|
    ensures CodePost(a, s1, b, blk1)
    ensures ClosedV(s1.ins, b, |blk1.code|, r.1) && v == Subst(s1.ins, b, r.1)
  {
    CodePostTrans(a, s, s1, b, r.0, blk1);
  }

  lemma CodePostRefl(s: Ssa, b: Block)
    requires b < |s.blk|
    ensures CodePost(s, s, b, s.blk[b])
  {
    assert s.blk[b := s.blk[b]] == s.blk;
  }

  /** The same for a list of actual parameters. */
  ghost predicate EmittedArgs(s: Ssa, s1: Ssa, b: Block, blk1: VBlock, ys: seq<Actual<Value>>, xs: seq<Actual<Value>>) {
    && CodePost(s, s1, b, blk1)
    && ClosedActuals(s1.ins, b, |blk1.code|, ys) && xs == SubstActuals(s1.ins, b, ys)
  }

  lemma ArgsThen(a: Ssa, s: Ssa, s1: Ssa, b: Block, blk: VBlock, ys: seq<Actual<Value>>, xs: seq<Actual<Value>>,
                 blk1: VBlock)
    requires EmittedArgs(a, s, b, blk, ys, xs) && CodePost(s, s1, b, blk1) && |blk.code| <= |blk1.code|
    ensures EmittedArgs(a, s1, b, blk1, ys, xs)
  {
    CodePostTrans(a, s, s1, b, blk, blk1);
    forall j | 0 <= j < |ys|
      ensures ClosedV(s1.ins, b, |blk1.code|, ys[j].v) && Subst(s1.ins, b, ys[j].v) == Subst(s.ins, b, ys[j].v)
    {
      assert ClosedV(s.ins, b, |blk.code|, ys[j].v);
    }
  }

  lemma ArgsSnoc(a: Ssa, s: Ssa, b: Block, blk: VBlock, ys: seq<Actual<Value>>, xs: seq<Actual<Value>>,
                 y: Actual<Value>, x: Actual<Value>)
    requires EmittedArgs(a, s, b, blk, ys, xs) && ClosedV(s.ins, b, |blk.code|, y.v) && x == SubstActual(s.ins, b, y)
    ensures EmittedArgs(a, s, b, blk, ys + [y], xs + [x])
  {
  }

  /** One more argument of a list. */
  lemma ArgsNext(c: Ctx, s: Ssa, s1: Ssa, s2: Ssa, b: Block, args: seq<Argument>, i: nat,
                 ys: seq<Actual<Value>>, xs: seq<Actual<Value>>, x: Actual<Value>)
    requires i < |args| && b < |s1.blk| && EmittedArgs(s, s1, b, s1.blk[b], ys, xs)
    requires var (blk2, y) := EmitArg(c, args[i], b, s1.blk[b]);
             CodePost(s1, s2, b, blk2) && ClosedV(s2.ins, b, |blk2.code|, y.v) && x == SubstActual(s2.ins, b, y)
    ensures b < |s2.blk| && EmittedArgs(s, s2, b, s2.blk[b], ys + [EmitArg(c, args[i], b, s1.blk[b]).1], xs + [x])
    ensures var (blk1, zs) := EmitArgs(c, args[i..], b, s1.blk[b]);
            var (blk3, zs1) := EmitArgs(c, args[i + 1..], b, s2.blk[b]);
            blk1 == blk3 && ys + zs == ys + [EmitArg(c, args[i], b, s1.blk[b]).1] + zs1
  {
    var (blk2, y) := EmitArg(c, args[i], b, s1.blk[b]);
    assert args[i..][1..] == args[i + 1..];
    ArgFrame(c, args[i], b, s1.blk[b]);
    ArgsThen(s, s1, s2, b, s1.blk[b], ys, xs, blk2);
    ArgsSnoc(s, s2, b, blk2, ys, xs, y, x);
  }

  lemma ArgsCons(a: Ssa, s: Ssa, b: Block, blk: VBlock, ys: seq<Actual<Value>>, xs: seq<Actual<Value>>,
                 y: Actual<Value>, x: Actual<Value>)
    requires EmittedArgs(a, s, b, blk, ys, xs) && ClosedV(s.ins, b, |blk.code|, y.v) && x == SubstActual(s.ins, b, y)
    ensures EmittedArgs(a, s, b, blk, [y] + ys, [x] + xs)
  {
  }

  // ----- which blocks a statement touches -----

  /** Created, but neither entered nor out of reach of further edges. */
  predicate Waiting(s: Ssa, b: Block) {
    b < |s.blk| && b !in s.rank && b !in s.closed
  }

  /** Block b is as entered, as closed and as connected as before. */
  predicate SameBlock(s: Ssa, s1: Ssa, b: Block) {
    && (b in s1.closed <==> b in s.closed) && (b in s1.rank <==> b in s.rank)
    && b < |s.preds| && b < |s1.preds| && s1.preds[b] == s.preds[b]
  }

  /** Of the first n blocks, those outside x are as before. */
  ghost predicate Untouched(s: Ssa, s1: Ssa, n: nat, x: set<Block>) {
    && n <= |s.blk| <= |s1.blk| && |s.preds| == |s.blk| && |s1.preds| == |s1.blk|
    && forall b: Block {:trigger SameBlock(s, s1, b)} :: b < n && b !in x ==> SameBlock(s, s1, b)
  }

  predicate IsClosed(s: Ssa, b: Block) { b in s.closed }

  /** From block n on every block outside x is closed. */
  ghost predicate ClosedFrom(s: Ssa, n: nat, x: set<Block>) {
    forall b: Block {:trigger IsClosed(s, b)} :: n <= b < |s.blk| && b !in x ==> IsClosed(s, b)
  }

  /** What emitting statements does to blocks: nothing to older ones, and every
      block is closed except the one the emitter is in. */
  ghost predicate StmtPost(s: Ssa, s1: Ssa, b: Block, b1: Block) {
    && b < |s.blk| && Untouched(s, s1, |s.blk|, {b}) && ClosedFrom(s1, |s.blk|, {b1})
    && b1 < |s1.blk| && (b1 == b || (b1 >= |s.blk| && b in s1.closed))
    && s1.preds[b] == s.preds[b] && s.closed <= s1.closed
  }

  lemma StmtPostTrans(a: Ssa, s: Ssa, s1: Ssa, b: Block, b1: Block, b2: Block)
    requires StmtPost(a, s, b, b1) && StmtPost(s, s1, b1, b2)
    ensures StmtPost(a, s1, b, b2)
  {
    forall x: Block | x < |a.blk| && x != b ensures SameBlock(a, s1, x) {
      assert SameBlock(a, s, x) && SameBlock(s, s1, x);
    }
    forall x: Block | |a.blk| <= x < |s1.blk| && x != b2 ensures IsClosed(s1, x) {
      if x < |s.blk| && x != b1 { assert IsClosed(s, x); }
      assert x >= |s.blk| ==> IsClosed(s1, x);
    }
    if b != b1 { assert SameBlock(s, s1, b); }
  }

  lemma CodeIsStmt(s: Ssa, s1: Ssa, b: Block, blk: VBlock)
    requires CodePost(s, s1, b, blk) && |s.preds| == |s.blk|
    ensures StmtPost(s, s1, b, b) && SetBlock(Skel(s.blk, b), blk) == Skel(s1.blk, b)
  {
  }

  /** The head of an IF is emitted: b branches to the new blocks n and n + 1 and
      is sealed, n is entered, the other new blocks wait. */
  ghost predicate HeadPost(s: Ssa, h: Ssa, b: Block, k: nat) {
    var n := |s.blk|;
    && |s.preds| == n && b < n && |h.blk| == n + k
    && Untouched(s, h, n, {b}) && b in h.closed && h.preds[b] == s.preds[b] && s.closed <= h.closed
    && n !in h.closed && forall x: Block :: n < x < n + k ==> Waiting(h, x)
  }

  lemma IfHeadPost(s0: Ssa, s2: Ssa, s3: Ssa, b: Block, k: nat, blk: VBlock, v: Value)
    requires |s0.preds| == |s0.blk| && b < |s0.blk| && k >= 2
    requires CodePost(AddBlocks(s0, k), s2, b, blk)
    requires SealPost(SetTerm(s2, b, CondBr(v, |s0.blk|, |s0.blk| + 1)), s3, b)
    requires (forall x: Block :: x in s0.rank || x in s0.closed ==> x < |s0.blk|)
    ensures var n := |s0.blk|;
            && Waiting(s3, n) && HeadPost(s0, EnterBlock(s3, n), b, k)
            && Skel(s3.blk, n) == Enter(Terminate(SetBlock(NewBlocks(Skel(s0.blk, b), k), blk), CondBr(v, n, n + 1)), n)
  {
    var n := |s0.blk|;
    var sk := Enter(Terminate(SetBlock(NewBlocks(Skel(s0.blk, b), k), blk), CondBr(v, n, n + 1)), n);
    assert s3.blk == sk.blocks;
  }

  lemma IfEntered(c: Ctx, cond: Expr, s0: Ssa, s2: Ssa, s3: Ssa, b: Block, k: nat)
    requires |s0.preds| == |s0.blk| && b < |s0.blk| && k >= 2
    requires (forall x: Block :: x in s0.rank || x in s0.closed ==> x < |s0.blk|)
    requires var (blk, v) := EmitExpr(c, cond, b, s0.blk[b]);
             CodePost(AddBlocks(s0, k), s2, b, blk)
             && SealPost(SetTerm(s2, b, CondBr(v, |s0.blk|, |s0.blk| + 1)), s3, b)
    ensures var n := |s0.blk|;
            && Waiting(s3, n) && HeadPost(s0, EnterBlock(s3, n), b, k)
            && Enter(Skel(s3.blk, b), n) == IfHead(c, cond, Skel(s0.blk, b), k)
  {
    var r := EmitExpr(c, cond, b, s0.blk[b]);
    IfHeadPost(s0, s2, s3, b, k, r.0, r.1);
    assert CurrBlock(NewBlocks(Skel(s0.blk, b), k)) == s0.blk[b];
  }

  lemma IfElseIs(c: Ctx, st: Stmt, sk: Skel)
    requires st.If? && st.els != []
    ensures EmitStmt(c, st, sk)
            == Enter(Fall(EmitStmts(c, st.els, ElseHead(c, st, sk)), |sk.blocks| + 2), |sk.blocks| + 2)
  {
  }

  /** An arm of an IF is emitted and leads to the waiting block `to`. */
  ghost predicate ArmPost(s: Ssa, s1: Ssa, b: Block, to: Block) {
    && b < |s.blk| && Untouched(s, s1, |s.blk|, {b, to}) && ClosedFrom(s1, |s.blk|, {})
    && b in s1.closed && Waiting(s1, to) && s1.preds[b] == s.preds[b] && s.closed <= s1.closed
  }

  lemma ArmTarget(s: Ssa, a: Ssa, b: Block, b1: Block, to: Block)
    requires StmtPost(s, a, b, b1) && Waiting(s, to) && to != b
    ensures CanTarget(a, to)
  {
    assert SameBlock(s, a, to);
  }

  lemma ArmDone(s: Ssa, a: Ssa, a1: Ssa, s1: Ssa, b: Block, b1: Block, to: Block)
    requires StmtPost(s, a, b, b1)
    requires a1 == a || (a1 == SetTerm(a, b1, Br(to)))
    requires SealPost(a1, s1, b1) && Waiting(s, to) && to != b
    ensures ArmPost(s, s1, b, to)
  {
    assert SameBlock(s, a, to);
    forall x: Block | x < |s.blk| && x !in {b, to} ensures SameBlock(s, s1, x) {
      assert SameBlock(s, a, x);
    }
    forall x: Block | |s.blk| <= x < |s1.blk| ensures IsClosed(s1, x) {
      if x != b1 { assert IsClosed(a, x); }
    }
  }

  lemma IfDone(s: Ssa, h: Ssa, a: Ssa, b: Block, to: Block)
    requires HeadPost(s, h, b, 2) && to == |s.blk| + 1
    requires ArmPost(h, a, |s.blk|, to)
    ensures StmtPost(s, EnterBlock(a, to), b, to)
  {
    forall x: Block | x < |s.blk| ensures x != b ==> SameBlock(s, EnterBlock(a, to), x) {
      assert SameBlock(h, a, x);
      assert x != b ==> SameBlock(s, h, x);
    }
    assert SameBlock(h, a, b);
    forall x: Block | |s.blk| <= x < |a.blk| && x != to ensures IsClosed(EnterBlock(a, to), x) {
      if x != |s.blk| { assert IsClosed(a, x); }
    }
  }

  /** Between the arms of an IF with ELSE: the second arm is entered, the block
      behind the IF waits, everything newer is closed. */
  ghost predicate MidPost(s: Ssa, m: Ssa, b: Block) {
    var n := |s.blk|;
    && |s.preds| == n && b < n && n + 3 <= |m.blk|
    && Untouched(s, m, n, {b}) && b in m.closed && m.preds[b] == s.preds[b] && s.closed <= m.closed
    && ClosedFrom(m, n, {n + 1, n + 2})
    && n + 1 !in m.closed && Waiting(m, n + 2)
  }

  lemma MidDone(s: Ssa, h: Ssa, a: Ssa, b: Block)
    requires HeadPost(s, h, b, 3)
    requires ArmPost(h, a, |s.blk|, |s.blk| + 2)
    ensures Waiting(a, |s.blk| + 1) && MidPost(s, EnterBlock(a, |s.blk| + 1), b)
  {
    var n, m := |s.blk|, EnterBlock(a, |s.blk| + 1);
    assert Waiting(h, n + 1) && SameBlock(h, a, n + 1) && SameBlock(h, a, b);
    forall x: Block | x < n && x != b ensures SameBlock(s, m, x) {
      assert SameBlock(h, a, x) && SameBlock(s, h, x);
    }
    forall x: Block | n <= x < |a.blk| && x !in {n + 1, n + 2} ensures IsClosed(m, x) {
      if x != n { assert IsClosed(a, x); }
    }
  }

  lemma IfElseDone(s: Ssa, m: Ssa, a: Ssa, b: Block, to: Block)
    requires to == |s.blk| + 2
    requires MidPost(s, m, b) && ArmPost(m, a, |s.blk| + 1, to)
    ensures StmtPost(s, EnterBlock(a, to), b, to)
  {
    var n := |s.blk|;
    assert SameBlock(m, a, b);
    forall x: Block | x < n && x != b ensures SameBlock(s, EnterBlock(a, to), x) {
      assert SameBlock(s, m, x) && SameBlock(m, a, x);
    }
    forall x: Block | n <= x < |a.blk| && x != to ensures IsClosed(EnterBlock(a, to), x) {
      if x < |m.blk| {
        if x != n + 1 { assert IsClosed(m, x); }
      } else {
        assert IsClosed(a, x);
      }
    }
  }

  /** The head of a WHILE is emitted: b leads to the condition block n, which
      waits for the edge from the body; the body is entered. */
  ghost predicate LoopPost(s: Ssa, h: Ssa, b: Block) {
    var n := |s.blk|;
    && |s.preds| == n && b < n && |h.blk| == n + 3
    && Untouched(s, h, n, {b}) && b in h.closed && h.preds[b] == s.preds[b] && s.closed <= h.closed
    && n in h.rank && n !in h.closed && h.preds[n] == [b] && n + 1 !in h.closed && Waiting(h, n + 2)
  }

  lemma LoopHeadPost(s0: Ssa, s2: Ssa, s3: Ssa, b: Block, blk: VBlock, v: Value)
    requires |s0.preds| == |s0.blk| && b < |s0.blk|
    requires (forall x: Block :: x in s0.rank || x in s0.closed ==> x < |s0.blk|)
    requires SealPost(SetTerm(AddBlocks(s0, 3), b, Br(|s0.blk|)), s2, b)
    requires CodePost(EnterBlock(s2, |s0.blk|), s3, |s0.blk|, blk)
    ensures var n := |s0.blk|;
            var s4 := SetTerm(s3, n, CondBr(v, n + 1, n + 2));
            LoopPost(s0, EnterBlock(s4, n + 1), b)
  {
  }

  lemma LoopWaiting(s0: Ssa, s2: Ssa, b: Block)
    requires |s0.preds| == |s0.blk| && b < |s0.blk|
    requires (forall x: Block :: x in s0.rank || x in s0.closed ==> x < |s0.blk|)
    requires SealPost(SetTerm(AddBlocks(s0, 3), b, Br(|s0.blk|)), s2, b)
    ensures var n := |s0.blk|;
            Waiting(EnterBlock(s2, n), n + 1) && CanTarget(EnterBlock(s2, n), n + 2)
  {
  }

  lemma LoopHeadIs(c: Ctx, cond: Expr, s0: Ssa, s2: Ssa, s3: Ssa, b: Block)
    requires |s0.preds| == |s0.blk| && b < |s0.blk|
    requires SealPost(SetTerm(AddBlocks(s0, 3), b, Br(|s0.blk|)), s2, b)
    requires CodePost(EnterBlock(s2, |s0.blk|), s3, |s0.blk|, EmitExpr(c, cond, |s0.blk|, FRESH).0)
    ensures var n := |s0.blk|;
            Skel(SetTerm(s3, n, CondBr(EmitExpr(c, cond, n, FRESH).1, n + 1, n + 2)).blk, n + 1)
            == LoopHead(c, cond, Skel(s0.blk, b))
  {
    var n := |s0.blk|;
    var sk := Enter(Terminate(NewBlocks(Skel(s0.blk, b), 3), Br(n)), n);
    assert s2.blk == sk.blocks && CurrBlock(sk) == FRESH;
  }

  lemma LoopEntered(c: Ctx, cond: Expr, s0: Ssa, s2: Ssa, s3: Ssa, s4: Ssa, b: Block)
    requires |s0.preds| == |s0.blk| && b < |s0.blk| < |s3.blk|
    requires (forall x: Block :: x in s0.rank || x in s0.closed ==> x < |s0.blk|)
    requires SealPost(SetTerm(AddBlocks(s0, 3), b, Br(|s0.blk|)), s2, b)
    requires var n := |s0.blk|;
             var (blk1, v) := EmitExpr(c, cond, n, FRESH);
             CodePost(EnterBlock(s2, n), s3, n, blk1)
             && s4 == EnterBlock(SetTerm(s3, n, CondBr(v, n + 1, n + 2)), n + 1)
    ensures LoopPost(s0, s4, b) && Skel(s4.blk, |s0.blk| + 1) == LoopHead(c, cond, Skel(s0.blk, b))
  {
    var r := EmitExpr(c, cond, |s0.blk|, FRESH);
    LoopHeadPost(s0, s2, s3, b, r.0, r.1);
    LoopHeadIs(c, cond, s0, s2, s3, b);
  }

  lemma WhileDone(s: Ssa, h: Ssa, a: Ssa, a1: Ssa, a2: Ssa, b: Block, b1: Block)
    requires LoopPost(s, h, b) && StmtPost(h, a, |s.blk| + 1, b1)
    requires SealPost(SetTerm(a, b1, Br(|s.blk|)), a1, |s.blk|) && SealPost(a1, a2, b1)
    ensures Waiting(a2, |s.blk| + 2) && StmtPost(s, EnterBlock(a2, |s.blk| + 2), b, |s.blk| + 2)
  {
    ClosedUp(a, a1, a2, |s.blk|, b1);
    LoopLeft(s, h, a, a2, b, b1);
  }

  lemma ClosedUp(a: Ssa, a1: Ssa, a2: Ssa, n: Block, b1: Block)
    requires b1 < |a.blk| == |a.preds| && n < |a.blk|
    requires SealPost(SetTerm(a, b1, Br(n)), a1, n) && SealPost(a1, a2, b1)
    ensures |a2.blk| == |a.blk| && a2.preds == a.preds[n := a.preds[n] + [b1]]
    ensures a2.closed == a.closed + {n, b1} && a2.rank == a.rank
  {
  }

  /** The loop is left: its blocks are closed, older ones are as before. */
  lemma LoopLeft(s: Ssa, h: Ssa, a: Ssa, a2: Ssa, b: Block, b1: Block)
    requires LoopPost(s, h, b) && StmtPost(h, a, |s.blk| + 1, b1)
    requires |a2.blk| == |a.blk| && a2.preds == a.preds[|s.blk| := a.preds[|s.blk|] + [b1]]
    requires a2.closed == a.closed + {|s.blk|, b1} && a2.rank == a.rank
    ensures Waiting(a2, |s.blk| + 2) && StmtPost(s, EnterBlock(a2, |s.blk| + 2), b, |s.blk| + 2)
  {
    var n, s1 := |s.blk|, EnterBlock(a2, |s.blk| + 2);
    assert SameBlock(h, a, n + 2) && SameBlock(h, a, b);
    LoopOutside(s, h, a, a2, b, b1);
    forall x: Block | n <= x < |a2.blk| && x != n + 2 ensures IsClosed(s1, x) {
      if x >= n + 3 && x != b1 { assert IsClosed(a, x); }
    }
  }

  lemma LoopOutside(s: Ssa, h: Ssa, a: Ssa, a2: Ssa, b: Block, b1: Block)
    requires LoopPost(s, h, b) && StmtPost(h, a, |s.blk| + 1, b1)
    requires |a2.blk| == |a.blk| && a2.preds == a.preds[|s.blk| := a.preds[|s.blk|] + [b1]]
    requires a2.closed == a.closed + {|s.blk|, b1} && a2.rank == a.rank
    ensures Untouched(s, EnterBlock(a2, |s.blk| + 2), |s.blk|, {b})
  {
    var n, s1 := |s.blk|, EnterBlock(a2, |s.blk| + 2);
    forall x: Block | x < n && x != b ensures SameBlock(s, s1, x) {
      assert SameBlock(s, h, x) && SameBlock(h, a, x);
    }
  }

  /** The condition block of a WHILE may take the edge from its body. */
  lemma LoopTarget(s: Ssa, h: Ssa, a: Ssa, b: Block, b1: Block)
    requires LoopPost(s, h, b) && StmtPost(h, a, |s.blk| + 1, b1)
    ensures CanTarget(a, |s.blk|) && |s.blk| in a.rank && b1 != |s.blk|
  {
    assert SameBlock(h, a, |s.blk|);
  }
}
