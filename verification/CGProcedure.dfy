/** The code generator for one procedure: on-the-fly SSA construction with
    sealed and unsealed blocks, and the emission of structured statements. */
module CodeGen {
  import opened Ir
  import opened Source
  import opened Skeleton
  import opened SsaState
  import opened SsaSteps
  import opened SsaCode
  import opened SsaReads
  import opened SsaEmit
  import opened Shape
  import opened Expressions
  import opened Statements

  /** optimizePhi's scan: the one operand other than k itself, or several. */
  method UniqueOperand(k: Key, ops: seq<Value>) returns (same: Option<Value>, several: bool)
    ensures several <==> exists a, b :: a in ops && b in ops && a != b && a != PhiRef(k) && b != PhiRef(k)
    ensures several ==> !Trivial(k, ops)
    ensures !several && same.None? ==> forall j :: 0 <= j < |ops| ==> ops[j] == PhiRef(k)
    ensures !several && same.Some? ==>
              same.value != PhiRef(k) && same.value in ops && TrivialOps(k, ops, same.value)
  {
    same, several := None, false;
    for i := 0 to |ops|
      invariant same.None? ==> forall j :: 0 <= j < i ==> ops[j] == PhiRef(k)
      invariant same.Some? ==> same.value != PhiRef(k) && same.value in ops[..i]
      invariant same.Some? ==> forall j :: 0 <= j < i ==> ops[j] == same.value || ops[j] == PhiRef(k)
    {
      if same == Some(ops[i]) || ops[i] == PhiRef(k) {
      } else if same.Some? {
        TwoOperands(k, ops, same.value, ops[i]);
        return same, true;
      } else {
        same := Some(ops[i]);
      }
    }
  }

  lemma TwoOperands(k: Key, ops: seq<Value>, a: Value, b: Value)
    requires a in ops && b in ops && a != b && a != PhiRef(k) && b != PhiRef(k)
    ensures !Trivial(k, ops)
  {
  }

  lemma FirstOpNotSelf(s: Ssa, k: Key)
    requires Inv(s) && k in s.phis && k !in s.pending && s.phis[k] != []
    ensures s.phis[k][0] != PhiRef(k)
  {
    assert PhiOk(s, k) && InOk(s, k);
    assert FlowsIn(s, k, 0, s.phis[k][0]);
    assert EdgesOk(s, k.block);
    DefValLive(s, Key(s.preds[k.block][0], k.decl));
  }

  class CGProcedure {
    const c: Ctx
    var fn: Program
    var def: CurrentDef
    var curr: Block
    ghost var g: Ssa

    ghost predicate Valid()
      reads this
    {
      Holds(g, fn, def)
    }

    /** Between statements: nothing is half done. */
    ghost predicate Settled()
      reads this
    {
      Valid() && Minimal(g, {}) && def.sealed == g.closed && NothingOpen(g)
    }

    /** Phi->replaceAllUsesWith(v) and eraseFromParent; handles follow. */
    method ReplaceAllUses(k: Key, v: Value)
      requires Valid() && k in g.phis && k !in g.pending
      requires v != PhiRef(k) && TrivialOps(k, g.phis[k], v)
      requires g.phis[k] == [] ==> v == Const(Undefined)
      modifies this
      ensures Valid() && g == RemovePhi(old(g), k, v)
      ensures def == ReplDef(k, v, old(def)) && curr == old(curr)
    {
      RemoveHolds(g, fn, def, k, v);
      fn := ReplProgram(k, v, fn);
      def := ReplDef(k, v, def);
      g := RemovePhi(g, k, v);
    }

    /** Replaces k if it is trivial, then looks again at the phis that used it.
        The callers promise that phis of t, those existing when the outermost
        read began, use nothing outside t: so they are never touched. */
    method OptimizePhi(k: Key, ghost t: set<Key>, ghost x: set<Key>) returns (v: Value)
      requires Valid() && k in g.phis && k !in g.pending && k !in t
      requires Screened(g, t) && Minimal(g, x + {k})
      modifies this
      ensures Valid() && SimplifyPost(old(g), g, t) && Minimal(g, x)
      ensures k in g.ins && v == g.ins[k]
      ensures def.sealed == old(def.sealed) && def.incomplete == old(def.incomplete) && curr == old(curr)
      ensures old(def.forwarded).Keys <= def.forwarded.Keys
      decreases |g.phis|, 0
    {
      assert PhiOk(g, k) && InOk(g, k);
      var same, several := UniqueOperand(k, fn.phis[k]);
      if several {
        return PhiRef(k);
      }
      if fn.phis[k] != [] { FirstOpNotSelf(g, k); }
      var value := if same.None? then Const(Undefined) else same.value;
      var candidates := Users(fn.phis, k);
      RemoveSimplifies(g, k, value, t);
      RemoveMinimal(g, k, value, x);
      UsersScreened(g, k, t);
      ReplaceAllUses(k, value);
      ghost var removed := g;
      SimplifyAll(candidates, t, x);
      SimplifyTrans(old(g), removed, g, t);
      v := def.forwarded[k];
    }

    /** optimizePhi on every candidate still there, in any order. */
    method SimplifyAll(candidates: set<Key>, ghost t: set<Key>, ghost x: set<Key>)
      requires Valid() && candidates !! t && candidates !! g.pending
      requires Screened(g, t) && Minimal(g, x + candidates)
      modifies this
      ensures Valid() && SimplifyPost(old(g), g, t) && Minimal(g, x)
      ensures def.sealed == old(def.sealed) && def.incomplete == old(def.incomplete) && curr == old(curr)
      ensures old(def.forwarded).Keys <= def.forwarded.Keys
      decreases |g.phis|, 2
    {
      var todo := candidates;
      SimplifyRefl(g, t);
      while todo != {}
        invariant Valid() && todo <= candidates && g.pending == old(g).pending
        invariant SimplifyPost(old(g), g, t) && Screened(g, t) && Minimal(g, x + todo)
        invariant def.sealed == old(def.sealed) && def.incomplete == old(def.incomplete) && curr == old(curr)
        invariant old(def.forwarded).Keys <= def.forwarded.Keys
      {
        var c :| c in todo;
        StillToDo(g, x, todo, c);
        todo := todo - {c};
        SimplifyCandidate(c, t, x + todo, old(g));
      }
      MinimalDone(g, x, todo);
    }

    /** One candidate, if it has not been erased since start. */
    method SimplifyCandidate(c: Key, ghost t: set<Key>, ghost x: set<Key>, ghost start: Ssa)
      requires Valid() && c !in t && c !in g.pending
      requires SimplifyPost(start, g, t) && Screened(g, t) && Minimal(g, x + {c})
      modifies this
      ensures Valid() && SimplifyPost(start, g, t) && Screened(g, t) && Minimal(g, x)
      ensures def.sealed == old(def.sealed) && def.incomplete == old(def.incomplete) && curr == old(curr)
      ensures old(def.forwarded).Keys <= def.forwarded.Keys
      decreases |start.phis|, 1
    {
      if c in fn.phis {
        FewerPhis(start, g);
        var _ := OptimizePhi(c, t, x);
        SimplifyTrans(start, old(g), g, t);
      } else {
        MinimalWithout(g, x, c);
      }
    }

    /** Fills phi k with the variable's value in every predecessor, and
        simplifies it. */
    method AddPhiOperands(k: Key, ghost t: set<Key>) returns (v: Value)
      requires Valid() && Minimal(g, {}) && MayRead(g, def.sealed, k.decl)
      requires k in g.pending && k in g.phis && g.phis[k] == []
      requires k.block in g.closed && k.block in g.rank && HasDef(g, k)
      requires OpsWithin(g, t) && Screened(g, t + {k}) && k !in t
      modifies this
      ensures Valid() && Minimal(g, {}) && FillPost(old(g), g, k, t)
      ensures k in g.ins && v == g.ins[k]
      ensures SameBooks(g, old(def), def) && curr == old(curr)
      decreases |Missing(g, k.decl)|, |g.rank|, 2
    {
      ghost var s := g;
      ReadOperands(k);
      ghost var a := g;
      FinishKeepsInv(g, k);
      OperandsHold(g, Finish(g, k), fn, fn, def);
      FillDone(s, g, k, |g.preds[k.block]|, t);
      g := Finish(g, k);
      assert {} + {k} == {k};
      v := OptimizePhi(k, t, {});
      FillEnd(s, a, g, k, |g.preds[k.block]|, t);
    }

    /** The loop of addPhiOperands over the predecessors. */
    method ReadOperands(k: Key)
      requires Valid() && Minimal(g, {}) && MayRead(g, def.sealed, k.decl)
      requires k in g.pending && k in g.phis && g.phis[k] == []
      requires k.block in g.closed && k.block in g.rank && HasDef(g, k)
      modifies this
      ensures Valid() && Minimal(g, {})
      ensures k.block < |g.preds| && FillState(old(g), g, k, |g.preds[k.block]|)
      ensures SameBooks(g, old(def), def) && curr == old(curr)
      decreases |Missing(g, k.decl)|, |g.rank|, 1
    {
      assert PhiOk(g, k) && InOk(g, k);
      assert fn.blocks[k.block] == BlockOf(g, k.block);
      var preds := fn.blocks[k.block].preds;
      ghost var s := g;
      for i := 0 to |preds|
        invariant Valid() && Minimal(g, {}) && MayRead(g, def.sealed, k.decl)
        invariant FillState(s, g, k, i)
        invariant SameBooks(g, old(def), def) && curr == old(curr)
      {
        ghost var a := g;
        assert EdgesOk(g, k.block);
        MissingShrinks(s, g, k.decl);
        var x := ReadLocal(preds[i], k.decl);
        FillStep(s, a, g, k, i, x);
        AddIncoming(k, x);
        MayReadExtends(a, g, def.sealed, k.decl);
      }
    }

    /** Phi->addIncoming. */
    method AddIncoming(k: Key, v: Value)
      requires Valid() && k in g.pending && k.block in g.closed
      requires k.block < |g.preds| && k in g.phis && |g.phis[k]| < |g.preds[k.block]|
      requires FlowsIn(g, k, |g.phis[k]|, v)
      modifies this
      ensures Valid() && g == AddOp(old(g), k, v) && def == old(def) && curr == old(curr)
      ensures Minimal(old(g), {}) ==> Minimal(g, {})
    {
      AddOpKeepsInv(g, k, v);
      OperandsHold(g, AddOp(g, k, v), fn, fn.(phis := fn.phis[k := fn.phis[k] + [v]]), def);
      fn := fn.(phis := fn.phis[k := fn.phis[k] + [v]]);
      g := AddOp(g, k, v);
    }

    /** The value of d at the end of block b. */
    method ReadLocal(b: Block, d: Decl) returns (v: Value)
      requires Valid() && Minimal(g, {}) && MayRead(g, def.sealed, d) && b in g.rank
      modifies this
      ensures Valid() && Minimal(g, {}) && ReadPost(old(g), g, d)
      ensures HasDef(g, Key(b, d)) && v == DefVal(g, Key(b, d))
      ensures SameBooks(g, old(def), def) && curr == old(curr)
      decreases |Missing(g, d)|, g.rank[b], 3
    {
      if Key(b, d) in def.defs {
        return def.defs[Key(b, d)];
      }
      v := ReadLocalRecursive(b, d);
    }

    method ReadLocalRecursive(b: Block, d: Decl) returns (v: Value)
      requires Valid() && Minimal(g, {}) && MayRead(g, def.sealed, d) && b in g.rank
      requires !HasDef(g, Key(b, d))
      modifies this
      ensures Valid() && Minimal(g, {}) && ReadPost(old(g), g, d)
      ensures HasDef(g, Key(b, d)) && v == DefVal(g, Key(b, d))
      ensures SameBooks(g, old(def), def) && curr == old(curr)
      decreases |Missing(g, d)|, g.rank[b], 2
    {
      var k := Key(b, d);
      assert fn.blocks[b] == BlockOf(g, b);
      if b !in def.sealed {
        NewPhiIsRead(g, k);
        v := AddEmptyPhi(k);
      } else if |fn.blocks[b].preds| == 1 {
        v := ReadOnlyPred(k);
      } else {
        v := ReadThroughPhi(k);
      }
    }

    /** The value in the one predecessor. */
    method ReadOnlyPred(k: Key) returns (v: Value)
      requires Valid() && Minimal(g, {}) && MayRead(g, def.sealed, k.decl) && k.block in g.rank
      requires !HasDef(g, k) && k.block in def.sealed && k.block < |g.preds| && |g.preds[k.block]| == 1
      modifies this
      ensures Valid() && Minimal(g, {}) && ReadPost(old(g), g, k.decl)
      ensures HasDef(g, k) && v == DefVal(g, k)
      ensures SameBooks(g, old(def), def) && curr == old(curr)
      decreases |Missing(g, k.decl)|, g.rank[k.block], 1
    {
      assert EdgesOk(g, k.block);
      PhisHaveIns(g);
      assert fn.blocks[k.block] == BlockOf(g, k.block);
      v := ReadLocal(fn.blocks[k.block].preds[0], k.decl);
      OnlyPredRead(old(g), g, k);
      Record(k, v);
    }

    /** A phi first, to break cycles; then its operands. */
    method ReadThroughPhi(k: Key) returns (v: Value)
      requires Valid() && Minimal(g, {}) && MayRead(g, def.sealed, k.decl) && k.block in g.rank
      requires !HasDef(g, k) && k.block in def.sealed && k.block < |g.preds| && |g.preds[k.block]| != 1
      modifies this
      ensures Valid() && Minimal(g, {}) && ReadPost(old(g), g, k.decl)
      ensures HasDef(g, k) && v == DefVal(g, k)
      ensures SameBooks(g, old(def), def) && curr == old(curr)
      decreases |Missing(g, k.decl)|, g.rank[k.block], 1
    {
      ghost var s := g;
      v := AddEmptyPhi(k);
      ghost var s1 := g;
      MissingShrinks(s, g, k.decl);
      MayReadExtends(s, g, def.sealed, k.decl);
      FreshPhiScreened(s, s1, k);
      v := AddPhiOperands(k, s.phis.Keys);
      FilledIsRead(s, s1, g, k);
    }

    /** addEmptyPhi and writeLocalVariable; an unsealed block remembers the phi. */
    method AddEmptyPhi(k: Key) returns (v: Value)
      requires Valid() && k.block in g.rank && !HasDef(g, k)
      requires k.block in g.closed ==> k.block in def.sealed
      modifies this
      ensures Valid() && g == NewPhi(old(g), k) && v == PhiRef(k)
      ensures Minimal(old(g), {}) ==> Minimal(g, {})
      ensures SameBooks(g, old(def), def) && curr == old(curr)
    {
      NewPhiKeepsInv(g, k);
      var inc := if k.block in def.sealed then def.incomplete else def.incomplete + {k};
      v := PhiRef(k);
      RecordHolds(g, NewPhi(g, k), fn, fn.(phis := fn.phis[k := []]), def, k, inc);
      fn := fn.(phis := fn.phis[k := []]);
      def := def.(defs := def.defs[k := v], incomplete := inc);
      g := NewPhi(g, k);
    }

    /** writeLocalVariable of a value read through the only predecessor. When
        the read came back to this block through a loop, the same value is
        already there. */
    method Record(k: Key, v: Value)
      requires Valid() && k.block < |g.blk| && k.decl !in g.blk[k.block].out
      requires k !in g.phis && k.block in g.closed && |g.preds[k.block]| == 1
      requires HasDef(g, Key(g.preds[k.block][0], k.decl))
      requires v == DefVal(g, Key(g.preds[k.block][0], k.decl))
      modifies this
      ensures Valid() && g == Cache(old(g), k, v) && fn == old(fn) && curr == old(curr)
      ensures Extends(old(g), g) && SameBooks(g, old(def), def)
    {
      if k in g.ins {
        assert InOk(g, k);
        assert FlowsIn(g, k, 0, g.ins[k]);
        assert g.ins[k := v] == g.ins;
        assert def.defs[k := v] == def.defs;
      } else {
        CacheKeepsInv(g, k, v);
        RecordHolds(g, Cache(g, k, v), fn, fn, def, k, def.incomplete);
      }
      def := def.(defs := def.defs[k := v]);
      g := Cache(g, k, v);
    }

    // ----- sealing -----

    /** All predecessors of b are known: fills the phis waiting in it, in any
        order. */
    method SealBlock(b: Block)
      requires Settled() && b in g.rank && b !in def.sealed
      modifies this
      ensures Settled() && SealPost(old(g), g, b)
      ensures def.sealed == old(def.sealed) + {b} && curr == old(curr)
    {
      CloseHolds(g, fn, def, b);
      g := Close(g, b);
      FillWaiting(b, set k | k in def.incomplete && k.block == b);
      SealedHolds(g, fn, def, b);
      def := def.(incomplete := (set k | k in def.incomplete && k.block != b), sealed := def.sealed + {b});
    }

    /** The loop of sealBlock over the phis waiting in b. */
    method FillWaiting(b: Block, waiting: set<Key>)
      requires Valid() && Minimal(g, {}) && SealState(g, g, b, waiting)
      requires g.closed == def.sealed + {b}
      modifies this
      ensures Valid() && Minimal(g, {}) && SealState(old(g), g, b, {})
      ensures def.sealed == old(def.sealed) && curr == old(curr)
    {
      ghost var s := g;
      var todo := waiting;
      while todo != {}
        invariant Valid() && Minimal(g, {}) && SealState(s, g, b, todo)
        invariant def.sealed == old(def.sealed) && curr == old(curr)
      {
        var k :| k in todo;
        todo := todo - {k};
        ghost var a := g;
        SealReady(s, g, b, todo, k, def.sealed);
        var _ := AddPhiOperands(k, {});
        SealStep(s, a, g, b, todo, k);
      }
    }

    // ----- emitting expressions -----

    /** There is a current block, and it may still get phis. */
    ghost predicate Placed()
      reads this
    {
      Settled() && curr in g.rank && curr < |g.blk| && curr !in def.sealed
    }

    /** ... and code. */
    ghost predicate Ready()
      reads this
    {
      Placed() && g.blk[curr].term.Open?
    }

    /** Appends an instruction, the SSA form of vi. */
    method PushInstr(i: Instr<Value>, ghost vi: Instr<Value>) returns (v: Value)
      requires Ready() && i == SubstI(g.ins, curr, vi) && ClosedI(g.ins, curr, |g.blk[curr].code|, vi)
      modifies this
      ensures Ready() && curr == old(curr) && def == old(def) && g.ins == old(g).ins
      ensures Emitted(old(g), g, curr, Push(curr, old(g).blk[curr], vi), v)
    {
      PushHolds(g, fn, def, curr, vi);
      assert fn.blocks[curr] == BlockOf(g, curr);
      v := Reg(curr, |fn.blocks[curr].code|);
      fn := AppendCode(fn, curr, i);
      g := SetCode(g, curr, Push(curr, g.blk[curr], vi).0);
    }

    /** The same behind the code blk emitted since s. */
    method PushOnto(i: Instr<Value>, ghost vi: Instr<Value>, ghost s: Ssa, ghost blk: VBlock) returns (v: Value)
      requires Ready() && CodePost(s, g, curr, blk) && i == SubstI(g.ins, curr, vi) &&
               ClosedI(g.ins, curr, |blk.code|, vi)
      modifies this
      ensures Ready() && curr == old(curr) && def == old(def) && g.ins == old(g).ins
      ensures Emitted(s, g, curr, Push(curr, blk, vi), v)
    {
      ghost var s1 := g;
      v := PushInstr(i, vi);
      CodePostTrans(s, s1, g, curr, blk, g.blk[curr]);
    }

    /** The value of d here: readLocalVariable(Curr, d). */
    method ReadHere(d: Decl) returns (v: Value)
      requires Ready()
      modifies this
      ensures Ready() && curr == old(curr) && def.sealed == old(def.sealed)
      ensures Emitted(old(g), g, curr, (old(g).blk[curr], Current(old(g).blk[curr].out, d)), v)
    {
      ghost var s := g;
      v := ReadLocal(curr, d);
      ReadIsCode(s, g, curr, d);
      assert ClosedBlock(g.ins, curr, g.blk[curr]);
    }

    method EmitExpr(e: Expr) returns (v: Value)
      requires Ready() && Emittable(c, e)
      modifies this
      ensures Ready() && curr == old(curr) && def.sealed == old(def.sealed)
      ensures Emitted(old(g), g, curr, Skeleton.EmitExpr(c, e, curr, old(g).blk[curr]), v)
      decreases e, 1
    {
      ghost var s, blk := g, g.blk[curr];
      match e {
        case Lit(x) =>
          CodePostRefl(g, curr);
          v := Const(x);
        case Read(d) =>
          if d.Var? && IsSsa(c, d.decl) {
            v := ReadHere(d.decl);
          } else {
            var a := EmitAddr(d);
            ghost var r := Skeleton.EmitAddr(c, d, curr, blk);
            v := PushOnto(Load(a), Load(r.1), s, r.0);
          }
        case Infix(op, l, r) =>
          v := EmitInfix(op, l, r);
        case Prefix(op, e1) =>
          var x := EmitExpr(e1);
          ghost var r := Skeleton.EmitExpr(c, e1, curr, blk);
          match op {
            case Plus => v := x;
            case Minus => v := PushOnto(Un(Neg, x), Un(Neg, r.1), s, r.0);
            case LogicalNot => v := PushOnto(Un(Not, x), Un(Not, r.1), s, r.0);
          }
        case ConstAccess(e1) =>
          v := EmitExpr(e1);
        case FunCall(f, args) =>
          v := EmitCall(f, args);
        case MethodCall(recv, slot, args) =>
          v := EmitMethodCall(recv, slot, args);
        case TypeTest(recv, desc) =>
          v := EmitTypeTest(recv, desc);
        case WholeOf(d) =>
          var a := EmitAddr(d);
          ghost var r := Skeleton.EmitAddr(c, d, curr, blk);
          v := PushOnto(LoadAll(a), LoadAll(r.1), s, r.0);
      }
    }

    method EmitInfix(op: BinOp, l: Expr, r: Expr) returns (v: Value)
      requires Ready() && Emittable(c, l) && Emittable(c, r)
      modifies this
      ensures Ready() && curr == old(curr) && def.sealed == old(def.sealed)
      ensures Emitted(old(g), g, curr, Skeleton.EmitExpr(c, Infix(op, l, r), curr, old(g).blk[curr]), v)
      decreases Infix(op, l, r), 0
    {
      ghost var s, blk := g, g.blk[curr];
      var x := EmitExpr(l);
      ghost var s1, rx := g, Skeleton.EmitExpr(c, l, curr, blk);
      v := EmitRight(op, x, rx.1, r);
      CodePostTrans(s, s1, g, curr, rx.0, g.blk[curr]);
    }

    /** The right operand, the left being x, and the operation. */
    method EmitRight(op: BinOp, x: Value, ghost vx: Value, r: Expr) returns (v: Value)
      requires Ready() && Emittable(c, r) && ClosedV(g.ins, curr, |g.blk[curr].code|, vx) && x == Subst(g.ins, curr, vx)
      modifies this
      ensures Ready() && curr == old(curr) && def.sealed == old(def.sealed)
      ensures var (blk1, y) := Skeleton.EmitExpr(c, r, curr, old(g).blk[curr]);
              Emitted(old(g), g, curr, Push(curr, blk1, Bin(op, vx, y)), v)
      decreases r, 2
    {
      ghost var s, blk := g, g.blk[curr];
      var y := EmitExpr(r);
      ghost var ry := Skeleton.EmitExpr(c, r, curr, blk);
      ExprFrame(c, r, curr, blk);
      OperandKept(s, g, curr, |blk.code|, |ry.0.code|, vx);
      v := PushOnto(Bin(op, x, y), Bin(op, vx, ry.1), s, ry.0);
    }

    /** The address of a designator: emitLValue. */
    method EmitAddr(d: Desig) returns (v: Value)
      requires Ready() && HasAddr(c, d)
      modifies this
      ensures Ready() && curr == old(curr) && def.sealed == old(def.sealed)
      ensures Emitted(old(g), g, curr, Skeleton.EmitAddr(c, d, curr, old(g).blk[curr]), v)
      decreases d, 1
    {
      CodePostRefl(g, curr);
      match d {
        case Var(x) =>
          match KindOf(c.kinds, x) {
            case VarParam => v := Arg(x);
            case Global => v := Const(Ptr(Loc(Ext(x), [])));
            case AggregateLocal(_) => v := ReadHere(x);
            case AggregateParam => v := ReadHere(x);
            case _ => v := SlotAddr(x);
          }
        case ResultOf(e, n) =>
          v := EmitResult(e, n);
        case Index(base, idx, low) =>
          v := EmitIndex(base, idx, low);
        case Field(base, n) =>
          ghost var s, blk := g, g.blk[curr];
          var a := EmitAddr(base);
          ghost var r := Skeleton.EmitAddr(c, base, curr, blk);
          v := PushOnto(Gep(a, Const(Int(n))), Gep(r.1, Const(Int(n))), s, r.0);
      }
    }

    /** The result of a call, put into its slot. */
    method EmitResult(e: Expr, n: nat) returns (v: Value)
      requires Ready() && Emittable(c, e)
      modifies this
      ensures Ready() && curr == old(curr) && def.sealed == old(def.sealed)
      ensures Emitted(old(g), g, curr, Skeleton.EmitAddr(c, ResultOf(e, n), curr, old(g).blk[curr]), v)
      decreases ResultOf(e, n), 0
    {
      ghost var s, blk := g, g.blk[curr];
      var y := EmitExpr(e);
      ghost var r := Skeleton.EmitExpr(c, e, curr, blk);
      v := TempAddr(n);
      var _ := PushOnto(StoreAll(v, y), StoreAll(v, r.1), s, r.0);
    }

    method EmitIndex(base: Desig, idx: Expr, low: int) returns (v: Value)
      requires Ready() && HasAddr(c, base) && Emittable(c, idx)
      modifies this
      ensures Ready() && curr == old(curr) && def.sealed == old(def.sealed)
      ensures Emitted(old(g), g, curr, Skeleton.EmitAddr(c, Index(base, idx, low), curr, old(g).blk[curr]), v)
      decreases Index(base, idx, low), 0
    {
      ghost var s, blk := g, g.blk[curr];
      var a := EmitAddr(base);
      ghost var s1, ra := g, Skeleton.EmitAddr(c, base, curr, blk);
      v := EmitElement(a, ra.1, idx, low);
      CodePostTrans(s, s1, g, curr, ra.0, g.blk[curr]);
    }

    /** The element of the array at a. */
    method EmitElement(a: Value, ghost va: Value, idx: Expr, low: int) returns (v: Value)
      requires Ready() && Emittable(c, idx) && ClosedV(g.ins, curr, |g.blk[curr].code|, va) &&
               a == Subst(g.ins, curr, va)
      modifies this
      ensures Ready() && curr == old(curr) && def.sealed == old(def.sealed)
      ensures var (blk1, i) := Skeleton.EmitExpr(c, idx, curr, old(g).blk[curr]);
              var (blk2, j) := Push(curr, blk1, Bin(WrapSub, i, Const(Int(low))));
              Emitted(old(g), g, curr, Push(curr, blk2, Gep(va, j)), v)
      decreases idx, 3
    {
      ghost var s, blk := g, g.blk[curr];
      var j := EmitOffset(idx, low);
      ghost var ri := Skeleton.EmitExpr(c, idx, curr, blk);
      ghost var rj := Push(curr, ri.0, Bin(WrapSub, ri.1, Const(Int(low))));
      ExprFrame(c, idx, curr, blk);
      OperandKept(s, g, curr, |blk.code|, |rj.0.code|, va);
      v := PushOnto(Gep(a, j), Gep(va, rj.1), s, rj.0);
    }

    /** The index, made zero-based. */
    method EmitOffset(idx: Expr, low: int) returns (v: Value)
      requires Ready() && Emittable(c, idx)
      modifies this
      ensures Ready() && curr == old(curr) && def.sealed == old(def.sealed)
      ensures var (blk1, i) := Skeleton.EmitExpr(c, idx, curr, old(g).blk[curr]);
              Emitted(old(g), g, curr, Push(curr, blk1, Bin(WrapSub, i, Const(Int(low)))), v)
      decreases idx, 2
    {
      ghost var s, blk := g, g.blk[curr];
      var i := EmitExpr(idx);
      ghost var r := Skeleton.EmitExpr(c, idx, curr, blk);
      v := PushOnto(Bin(WrapSub, i, Const(Int(low))), Bin(WrapSub, r.1, Const(Int(low))), s, r.0);
    }

    /** The actual parameters, left to right: addresses at VAR positions. */
    method EmitArgs(args: seq<Argument>) returns (xs: seq<Actual<Value>>)
      requires Ready() && EmittableArgs(c, args)
      modifies this
      ensures Ready() && curr == old(curr) && def.sealed == old(def.sealed)
      ensures var (blk1, ys) := Skeleton.EmitArgs(c, args, curr, old(g).blk[curr]);
              EmittedArgs(old(g), g, curr, blk1, ys, xs)
      decreases args, 0
    {
      ghost var s, blk := g, g.blk[curr];
      ghost var ys: seq<Actual<Value>> := [];
      xs := [];
      CodePostRefl(g, curr);
      assert args[0..] == args;
      assert ys + Skeleton.EmitArgs(c, args, curr, blk).1 == Skeleton.EmitArgs(c, args, curr, blk).1;
      for i := 0 to |args|
        invariant Ready() && curr == old(curr) && def.sealed == old(def.sealed)
        invariant EmittableArgs(c, args[i..])
        invariant EmittedArgs(s, g, curr, g.blk[curr], ys, xs)
        invariant var (blk1, zs) := Skeleton.EmitArgs(c, args[i..], curr, g.blk[curr]);
                  Skeleton.EmitArgs(c, args, curr, blk) == (blk1, ys + zs)
      {
        ghost var s1, y := g, Skeleton.EmitArg(c, args[i], curr, g.blk[curr]).1;
        assert args[i..][1..] == args[i + 1..];
        var x := EmitArg(args[i]);
        ArgsNext(c, s, s1, g, curr, args, i, ys, xs, x);
        xs, ys := xs + [x], ys + [y];
      }
      assert args[|args|..] == [];
    }

    method EmitArg(a: Argument) returns (x: Actual<Value>)
      requires Ready() && EmittableArg(c, a)
      modifies this
      ensures Ready() && curr == old(curr) && def.sealed == old(def.sealed)
      ensures var (blk1, y) := Skeleton.EmitArg(c, a, curr, old(g).blk[curr]);
              CodePost(old(g), g, curr, blk1) && ClosedV(g.ins, curr, |blk1.code|, y.v) &&
              x == SubstActual(g.ins, curr, y)
      decreases a, 2
    {
      match a {
        case ValArg(e) => var v := EmitExpr(e); x := ByVal(v);
        case VarArg(d) => var v := EmitAddr(d); x := ByRef(v);
      }
    }

    method EmitCall(f: nat, args: seq<Argument>) returns (v: Value)
      requires Ready() && EmittableArgs(c, args)
      modifies this
      ensures Ready() && curr == old(curr) && def.sealed == old(def.sealed)
      ensures Emitted(old(g), g, curr, Skeleton.EmitExpr(c, FunCall(f, args), curr, old(g).blk[curr]), v)
      decreases FunCall(f, args), 0
    {
      ghost var s, blk := g, g.blk[curr];
      var xs := EmitArgs(args);
      ghost var (blk1, ys) := Skeleton.EmitArgs(c, args, curr, blk);
      v := PushOnto(Call(Const(Fn(f)), xs), Call(Const(Fn(f)), ys), s, blk1);
    }

    /** The receiver's address and the method its type descriptor selects. */
    method EmitDispatch(recv: Desig, slot: nat) returns (self: Value, f: Value)
      requires Ready() && HasAddr(c, recv)
      modifies this
      ensures Ready() && curr == old(curr) && def.sealed == old(def.sealed)
      ensures var (blk1, a) := Skeleton.EmitAddr(c, recv, curr, old(g).blk[curr]);
              var (blk2, t) := Push(curr, blk1, Load(a));
              && Emitted(old(g), g, curr, Push(curr, blk2, SlotOf(t, slot)), f)
              && ClosedV(g.ins, curr, |blk1.code| + 2, a) && self == Subst(g.ins, curr, a)
      decreases recv, 3
    {
      ghost var s, blk := g, g.blk[curr];
      var tag;
      self, tag := EmitTag(recv);
      ghost var s1, r := g, Skeleton.EmitAddr(c, recv, curr, blk);
      ghost var rt := Push(curr, r.0, Load(r.1));
      f := PushOnto(SlotOf(tag, slot), SlotOf(rt.1, slot), s, rt.0);
      OperandKept(s1, g, curr, |rt.0.code|, |rt.0.code| + 1, r.1);
    }

    /** The receiver's address and its type tag. */
    method EmitTag(recv: Desig) returns (self: Value, tag: Value)
      requires Ready() && HasAddr(c, recv)
      modifies this
      ensures Ready() && curr == old(curr) && def.sealed == old(def.sealed)
      ensures var (blk1, a) := Skeleton.EmitAddr(c, recv, curr, old(g).blk[curr]);
              && Emitted(old(g), g, curr, Push(curr, blk1, Load(a)), tag)
              && ClosedV(g.ins, curr, |blk1.code| + 1, a) && self == Subst(g.ins, curr, a)
      decreases recv, 2
    {
      ghost var s, blk := g, g.blk[curr];
      self := EmitAddr(recv);
      ghost var s1, r := g, Skeleton.EmitAddr(c, recv, curr, blk);
      tag := PushOnto(Load(self), Load(r.1), s, r.0);
      OperandKept(s1, g, curr, |r.0.code|, |r.0.code| + 1, r.1);
    }

    /** A dynamically dispatched call; the receiver is passed by reference. */
    method EmitMethodCall(recv: Desig, slot: nat, args: seq<Argument>) returns (v: Value)
      requires Ready() && HasAddr(c, recv) && EmittableArgs(c, args)
      modifies this
      ensures Ready() && curr == old(curr) && def.sealed == old(def.sealed)
      ensures Emitted(old(g), g, curr, Skeleton.EmitExpr(c, MethodCall(recv, slot, args), curr, old(g).blk[curr]), v)
      decreases MethodCall(recv, slot, args), 0
    {
      ghost var s, blk := g, g.blk[curr];
      var self, f := EmitDispatch(recv, slot);
      ghost var s1, r := g, Skeleton.EmitAddr(c, recv, curr, blk);
      ghost var rt := Push(curr, r.0, Load(r.1));
      ghost var rf := Push(curr, rt.0, SlotOf(rt.1, slot));
      v := EmitInvoke(self, r.1, f, rf.1, args);
      CodePostTrans(s, s1, g, curr, rf.0, g.blk[curr]);
    }

    /** The arguments behind the receiver, and the call of f. */
    method EmitInvoke(self: Value, ghost vself: Value, f: Value, ghost vf: Value, args: seq<Argument>)
      returns (v: Value)
      requires Ready() && EmittableArgs(c, args)
      requires ClosedV(g.ins, curr, |g.blk[curr].code|, vself) && self == Subst(g.ins, curr, vself)
      requires ClosedV(g.ins, curr, |g.blk[curr].code|, vf) && f == Subst(g.ins, curr, vf)
      modifies this
      ensures Ready() && curr == old(curr) && def.sealed == old(def.sealed)
      ensures var (blk1, ys) := Skeleton.EmitArgs(c, args, curr, old(g).blk[curr]);
              Emitted(old(g), g, curr, Push(curr, blk1, Call(vf, [ByRef(vself)] + ys)), v)
      decreases args, 1
    {
      ghost var s, blk := g, g.blk[curr];
      var xs := EmitArgs(args);
      ghost var (blk1, ys) := Skeleton.EmitArgs(c, args, curr, blk);
      ArgsFrame(c, args, curr, blk);
      OperandKept(s, g, curr, |blk.code|, |blk1.code|, vf);
      OperandKept(s, g, curr, |blk.code|, |blk1.code|, vself);
      ArgsCons(s, g, curr, blk1, ys, xs, ByRef(vself), ByRef(self));
      v := PushOnto(Call(f, [ByRef(self)] + xs), Call(vf, [ByRef(vself)] + ys), s, blk1);
    }

    /** v IS T: compares the tag with T's descriptor. */
    method EmitTypeTest(recv: Desig, desc: Loc) returns (v: Value)
      requires Ready() && HasAddr(c, recv)
      modifies this
      ensures Ready() && curr == old(curr) && def.sealed == old(def.sealed)
      ensures Emitted(old(g), g, curr, Skeleton.EmitExpr(c, TypeTest(recv, desc), curr, old(g).blk[curr]), v)
      decreases TypeTest(recv, desc), 0
    {
      ghost var s, blk := g, g.blk[curr];
      var _, tag := EmitTag(recv);
      ghost var r := Skeleton.EmitAddr(c, recv, curr, blk);
      ghost var rt := Push(curr, r.0, Load(r.1));
      assert Skeleton.EmitExpr(c, TypeTest(recv, desc), curr, blk) == Push(curr, rt.0, Bin(Eq, rt.1, Const(Ptr(desc))));
      v := PushOnto(Bin(Eq, tag, Const(Ptr(desc))), Bin(Eq, rt.1, Const(Ptr(desc))), s, rt.0);
    }

    // ----- emitting statements -----

    ghost function Sk(): Skel
      reads this
    {
      Skel(g.blk, curr)
    }

    /** writeLocalVariable of an assigned value, the SSA form of vv. */
    method SetVar(d: Decl, v: Value, ghost vv: Value)
      requires Ready() && ClosedV(g.ins, curr, |g.blk[curr].code|, vv) && v == Subst(g.ins, curr, vv)
      modifies this
      ensures Ready() && curr == old(curr) && def.sealed == old(def.sealed)
      ensures CodePost(old(g), g, curr, old(g).blk[curr].(out := old(g).blk[curr].out[d := vv]))
    {
      SetVarHolds(g, fn, def, curr, d, vv);
      def := def.(defs := def.defs[Key(curr, d) := v]);
      g := SetCode(g, curr, g.blk[curr].(out := g.blk[curr].out[d := vv]));
    }

    method EmitAssign(t: Desig, e: Expr)
      requires Ready() && EmittableStmt(c, Assign(t, e))
      modifies this
      ensures Ready() && curr == old(curr) && def.sealed == old(def.sealed)
      ensures CodePost(old(g), g, curr, Skeleton.EmitAssign(c, t, e, curr, old(g).blk[curr]))
    {
      ghost var s, blk := g, g.blk[curr];
      var v := EmitExpr(e);
      ghost var r := Skeleton.EmitExpr(c, e, curr, blk);
      ghost var s1 := g;
      if t.Var? && IsSsa(c, t.decl) {
        SetVar(t.decl, v, r.1);
        CodePostTrans(s, s1, g, curr, r.0, g.blk[curr]);
      } else {
        var a := EmitAddr(t);
        ghost var ra := Skeleton.EmitAddr(c, t, curr, r.0);
        AddrFrame(c, t, curr, r.0);
        EmittedThen(s, s1, g, curr, r, v, ra.0);
        var _ := PushOnto(StoreTo(a, v), StoreTo(ra.1, r.1), s, ra.0);
      }
    }

    /** An assignment of aggregates: emitMemCpy. */
    method EmitCopy(t: Desig, d: Desig)
      requires Ready() && HasAddr(c, t) && HasAddr(c, d)
      modifies this
      ensures Ready() && curr == old(curr) && def.sealed == old(def.sealed)
      ensures CodePost(old(g), g, curr, Skeleton.EmitCopy(c, t, d, curr, old(g).blk[curr]))
    {
      ghost var s, blk := g, g.blk[curr];
      var a := EmitAddr(t);
      ghost var r := Skeleton.EmitAddr(c, t, curr, blk);
      ghost var s1 := g;
      var v := EmitAddr(d);
      ghost var rx := Skeleton.EmitAddr(c, d, curr, r.0);
      AddrFrame(c, d, curr, r.0);
      EmittedThen(s, s1, g, curr, r, a, rx.0);
      var _ := PushOnto(CopyAll(a, v), CopyAll(r.1, rx.1), s, rx.0);
    }

    /** Ends the current block, adding the edges to its successors. */
    method Branch(t: Term<Value>, ghost vt: Term<Value>)
      requires Ready() && t == SubstT(g.ins, curr, vt) && !vt.Open?
      requires ClosedT(g.ins, curr, |g.blk[curr].code|, vt) && TargetsOk(g, vt)
      modifies this
      ensures Placed() && curr == old(curr) && def.sealed == old(def.sealed)
      ensures g == SetTerm(old(g), curr, vt)
    {
      BranchHolds(g, fn, def, curr, vt);
      fn := BranchCode(fn, curr, t);
      g := SetTerm(g, curr, vt);
    }

    method BranchAndSeal(t: Term<Value>, ghost vt: Term<Value>)
      requires Ready() && t == SubstT(g.ins, curr, vt) && !vt.Open?
      requires ClosedT(g.ins, curr, |g.blk[curr].code|, vt) && TargetsOk(g, vt)
      modifies this
      ensures Settled() && curr == old(curr) && SealPost(SetTerm(old(g), curr, vt), g, curr)
      ensures curr < |old(g).blk|
    {
      Branch(t, vt);
      SealBlock(curr);
    }

    /** setCurr on a block for the first time. */
    method EnterNew(b: Block)
      requires Settled() && Waiting(g, b)
      modifies this
      ensures Ready() && curr == b && def.sealed == old(def.sealed) && g == EnterBlock(old(g), b)
      ensures g.blk[b] == FRESH
    {
      EnterHolds(g, fn, def, b);
      g := EnterBlock(g, b);
      curr := b;
    }

    method NewBlocks(n: nat) returns (first: Block)
      requires Ready()
      modifies this
      ensures Ready() && curr == old(curr) && def.sealed == old(def.sealed)
      ensures g == AddBlocks(old(g), n) && first == |old(g).blk|
      ensures forall b :: first <= b < first + n ==> Waiting(g, b) && g.preds[b] == []
    {
      AddBlocksHolds(g, fn, def, n);
      first := |fn.blocks|;
      fn := AddBlocksCode(fn, n);
      g := AddBlocks(g, n);
    }

    lemma ShapeOf()
      requires Settled()
      ensures |g.preds| == |g.blk| && |fn.blocks| == |g.blk|
      ensures forall x: Block :: x in g.rank || x in g.closed ==> x < |g.blk|
    {
    }

    method EmitStmts(ss: seq<Stmt>)
      requires Ready() && ReturnsLast(ss) && EmittableStmts(c, ss)
      modifies this
      ensures Placed() && Sk() == Skeleton.EmitStmts(c, ss, old(Sk()))
      ensures StmtPost(old(g), g, old(curr), curr)
      decreases ss, 3
    {
      CodePostRefl(g, curr);
      ShapeOf();
      CodeIsStmt(g, g, curr, g.blk[curr]);
      assert ss[0..] == ss;
      for i := 0 to |ss|
        invariant Placed() && (i < |ss| ==> Ready())
        invariant ReturnsLast(ss[i..]) && EmittableStmts(c, ss[i..])
        invariant Skeleton.EmitStmts(c, ss[i..], Sk()) == Skeleton.EmitStmts(c, ss, old(Sk()))
        invariant StmtPost(old(g), g, old(curr), curr)
      {
        assert ss[i..][1..] == ss[i + 1..];
        ghost var s1, b1 := g, curr;
        StmtAdvances(c, ss[i], Sk());
        EmitStmt(ss[i]);
        StmtPostTrans(old(g), s1, g, old(curr), b1, curr);
      }
      assert ss[|ss|..] == [];
    }

    method EmitStmt(st: Stmt)
      requires Ready() && ReturnsLastStmt(st) && EmittableStmt(c, st)
      modifies this
      ensures Placed() && Sk() == Skeleton.EmitStmt(c, st, old(Sk()))
      ensures StmtPost(old(g), g, old(curr), curr)
      decreases st, 2
    {
      ghost var s := g;
      ShapeOf();
      match st {
        case Assign(t, e) =>
          EmitAssign(t, e);
          CodeIsStmt(s, g, curr, g.blk[curr]);
        case AssignWhole(t, d) =>
          EmitCopy(t, d);
          CodeIsStmt(s, g, curr, g.blk[curr]);
        case CallStmt(e) =>
          var _ := EmitExpr(e);
          CodeIsStmt(s, g, curr, g.blk[curr]);
        case If(cond, thn, els) =>
          if els == [] { EmitIf(st); } else { EmitIfElse(st); }
        case While(_, _) =>
          EmitWhile(st);
        case Return(e) =>
          EmitReturn(e);
      }
    }

    method EmitReturn(e: Option<Expr>)
      requires Ready() && EmittableStmt(c, Return(e))
      modifies this
      ensures Placed() && Sk() == Skeleton.EmitStmt(c, Return(e), old(Sk()))
      ensures StmtPost(old(g), g, old(curr), curr)
      decreases Return(e), 1
    {
      ghost var s, blk := g, g.blk[curr];
      ShapeOf();
      if e.Some? {
        var v := EmitExpr(e.value);
        ghost var r := Skeleton.EmitExpr(c, e.value, curr, blk);
        Branch(Ret(v), Ret(r.1));
      } else {
        Branch(RetVoid, RetVoid);
      }
    }

    /** The new blocks and the condition of an IF; its first arm is entered. */
    method EmitIfHead(cond: Expr, k: nat) returns (n: Block)
      requires Ready() && Emittable(c, cond) && k >= 2
      modifies this
      ensures Ready() && n == |old(g).blk| && curr == n && Sk() == IfHead(c, cond, old(Sk()), k)
      ensures HeadPost(old(g), g, old(curr), k)
    {
      n := EmitIfTest(cond, k);
      EnterNew(n);
    }

    method EmitIfTest(cond: Expr, k: nat) returns (n: Block)
      requires Ready() && Emittable(c, cond) && k >= 2
      modifies this
      ensures Settled() && n == |old(g).blk| && Waiting(g, n) && Enter(Sk(), n) == IfHead(c, cond, old(Sk()), k)
      ensures HeadPost(old(g), EnterBlock(g, n), old(curr), k)
    {
      ghost var s0 := g;
      ShapeOf();
      n := NewBlocks(k);
      ghost var s2 := EmitCondition(cond, n, n + 1);
      SealBlock(curr);
      IfEntered(c, cond, s0, s2, g, curr, k);
    }

    /** A condition and the branch on it. */
    method EmitCondition(cond: Expr, yes: Block, no: Block) returns (ghost s1: Ssa)
      requires Ready() && Emittable(c, cond) && yes != no && CanTarget(g, yes) && CanTarget(g, no)
      modifies this
      ensures Settled() && Placed() && curr == old(curr) < |old(g).blk| == |s1.blk|
      ensures var (blk1, v) := Skeleton.EmitExpr(c, cond, curr, old(g).blk[curr]);
              CodePost(old(g), s1, curr, blk1) && g == SetTerm(s1, curr, CondBr(v, yes, no))
    {
      ghost var blk := g.blk[curr];
      var v := EmitExpr(cond);
      s1 := g;
      Branch(CondBr(v, yes, no), CondBr(Skeleton.EmitExpr(c, cond, curr, blk).1, yes, no));
    }

    /** An arm of an IF, up to the branch to the block behind it. */
    method EmitArm(ss: seq<Stmt>, to: Block)
      requires Ready() && ReturnsLast(ss) && EmittableStmts(c, ss) && Waiting(g, to) && to != curr
      modifies this
      ensures Settled() && ArmPost(old(g), g, old(curr), to)
      ensures Sk() == Fall(Skeleton.EmitStmts(c, ss, old(Sk())), to)
      decreases ss, 4
    {
      ghost var s := g;
      EmitStmts(ss);
      ghost var a := g;
      ShapeOf();
      assert fn.blocks[curr] == BlockOf(g, curr);
      if fn.blocks[curr].term.Open? {
        ArmTarget(s, g, old(curr), curr, to);
        Branch(Br(to), Br(to));
      }
      ghost var a1 := g;
      SealBlock(curr);
      ArmDone(s, a, a1, g, old(curr), curr, to);
    }

    method EmitIf(st: Stmt)
      requires Ready() && st.If? && st.els == [] && ReturnsLastStmt(st) && EmittableStmt(c, st)
      modifies this
      ensures Placed() && Sk() == Skeleton.EmitStmt(c, st, old(Sk()))
      ensures StmtPost(old(g), g, old(curr), curr)
      decreases st, 1
    {
      ghost var s := g;
      var n := EmitIfHead(st.cond, 2);
      ghost var h := g;
      EmitArm(st.thn, n + 1);
      IfDone(s, h, g, old(curr), n + 1);
      EnterNew(n + 1);
    }

    /** Up to the entry of the second arm. */
    method EmitThen(st: Stmt) returns (n: Block)
      requires Ready() && st.If? && st.els != [] && ReturnsLastStmt(st) && EmittableStmt(c, st)
      modifies this
      ensures Ready() && n == |old(g).blk| && curr == n + 1 && Sk() == ElseHead(c, st, old(Sk()))
      ensures MidPost(old(g), g, old(curr))
      decreases st, 0
    {
      ghost var s := g;
      n := EmitIfHead(st.cond, 3);
      ghost var h := g;
      EmitArm(st.thn, n + 2);
      MidDone(s, h, g, old(curr));
      EnterNew(n + 1);
    }

    method EmitIfElse(st: Stmt)
      requires Ready() && st.If? && st.els != [] && ReturnsLastStmt(st) && EmittableStmt(c, st)
      modifies this
      ensures Placed() && Sk() == Skeleton.EmitStmt(c, st, old(Sk()))
      ensures StmtPost(old(g), g, old(curr), curr)
      decreases st, 1
    {
      ghost var s := g;
      var n := EmitThen(st);
      ghost var m := g;
      EmitArm(st.els, n + 2);
      IfElseDone(s, m, g, old(curr), n + 2);
      EnterNew(n + 2);
      IfElseIs(c, st, old(Sk()));
    }

    /** The new blocks of a WHILE; its condition block is entered. */
    method EnterLoop() returns (n: Block, ghost s2: Ssa)
      requires Ready()
      modifies this
      ensures Ready() && n == |old(g).blk| && curr == n && g == EnterBlock(s2, n) && g.blk[n] == FRESH
      ensures old(curr) < n && SealPost(SetTerm(AddBlocks(old(g), 3), old(curr), Br(n)), s2, old(curr))
    {
      ShapeOf();
      n := NewBlocks(3);
      BranchAndSeal(Br(n), Br(n));
      s2 := g;
      EnterNew(n);
    }

    /** The condition, and the branch on it; the first target is entered. */
    method EmitTest(cond: Expr, yes: Block, no: Block) returns (ghost s3: Ssa)
      requires Ready() && Emittable(c, cond) && yes != no && yes != curr
      requires Waiting(g, yes) && CanTarget(g, no)
      modifies this
      ensures Ready() && curr == yes && old(curr) < |old(g).blk| == |s3.blk|
      ensures var (blk1, v) := Skeleton.EmitExpr(c, cond, old(curr), old(g).blk[old(curr)]);
              && CodePost(old(g), s3, old(curr), blk1)
              && g == EnterBlock(SetTerm(s3, old(curr), CondBr(v, yes, no)), yes)
    {
      s3 := EmitCondition(cond, yes, no);
      EnterNew(yes);
    }

    /** Up to the entry of the body of a WHILE; the condition block stays
        unsealed. */
    method EmitLoopHead(cond: Expr) returns (n: Block)
      requires Ready() && Emittable(c, cond)
      modifies this
      ensures Ready() && n == |old(g).blk| && curr == n + 1 && Sk() == LoopHead(c, cond, old(Sk()))
      ensures LoopPost(old(g), g, old(curr))
    {
      ghost var s0, b := g, curr;
      ShapeOf();
      ghost var s2;
      n, s2 := EnterLoop();
      LoopWaiting(s0, s2, b);
      EmitLoopTest(cond, s0, s2, b);
    }

    /** The condition of a WHILE, whose block is entered. */
    method EmitLoopTest(cond: Expr, ghost s0: Ssa, ghost s2: Ssa, ghost b: Block)
      requires Ready() && Emittable(c, cond) && |s0.preds| == |s0.blk| && b < |s0.blk| == curr
      requires forall x: Block :: x in s0.rank || x in s0.closed ==> x < |s0.blk|
      requires SealPost(SetTerm(AddBlocks(s0, 3), b, Br(curr)), s2, b)
      requires g == EnterBlock(s2, curr) && g.blk[curr] == FRESH && Waiting(g, curr + 1) && CanTarget(g, curr + 2)
      modifies this
      ensures Ready() && curr == |s0.blk| + 1 && Sk() == LoopHead(c, cond, Skel(s0.blk, b)) && LoopPost(s0, g, b)
    {
      ghost var s3 := EmitTest(cond, curr + 1, curr + 2);
      LoopEntered(c, cond, s0, s2, s3, g, b);
    }

    /** The edge back to the condition block, which is then sealed, and so is the
        end of the body. */
    method CloseLoop(n: Block) returns (ghost a1: Ssa)
      requires Ready() && CanTarget(g, n) && n in g.rank && n != curr
      modifies this
      ensures Settled() && curr == old(curr) < |old(g).blk|
      ensures SealPost(SetTerm(old(g), curr, Br(n)), a1, n) && SealPost(a1, g, curr)
    {
      Branch(Br(n), Br(n));
      SealBlock(n);
      a1 := g;
      SealBlock(curr);
    }

    method EmitWhile(st: Stmt)
      requires Ready() && st.While? && ReturnsLastStmt(st) && EmittableStmt(c, st)
      modifies this
      ensures Placed() && Sk() == Skeleton.EmitStmt(c, st, old(Sk()))
      ensures StmtPost(old(g), g, old(curr), curr)
      decreases st, 1
    {
      ghost var s, b := g, curr;
      var n := EmitLoopHead(st.cond);
      EmitBody(st.body, n, s, b);
      EnterNew(n + 2);
    }

    /** The body of a WHILE whose condition block is n, and the end of the loop. */
    method EmitBody(body: seq<Stmt>, n: Block, ghost s: Ssa, ghost b: Block)
      requires Ready() && ReturnsLast(body) && !EndsInReturn(body) && EmittableStmts(c, body)
      requires LoopPost(s, g, b) && n == |s.blk| && curr == n + 1
      modifies this
      ensures Settled() && Waiting(g, n + 2) && StmtPost(s, EnterBlock(g, n + 2), b, n + 2)
      ensures Sk() == Terminate(Skeleton.EmitStmts(c, body, old(Sk())), Br(n))
      decreases body, 4
    {
      ghost var h := g;
      EmitAdvances(c, body, Sk());
      EmitStmts(body);
      ghost var a, b1 := g, curr;
      LoopTarget(s, h, a, b, b1);
      ghost var a1 := CloseLoop(n);
      WhileDone(s, h, a, a1, g, b, b1);
    }

    // ----- a whole procedure -----

    /** A new function with its entry block. */
    constructor (c: Ctx)
      ensures this.c == c && Ready() && curr == 0 && g.blk == [FRESH] && g.preds == [[]] && def.sealed == {}
    {
      this.c := c;
      fn := Program([BasicBlock([], Open, [])], map[]);
      def := CurrentDef(map[], {}, {}, map[]);
      curr := 0;
      g := Ssa([FRESH], [[]], map[0 := 0], {}, map[], map[], {});
    }

    /** A parameter or local: an SSA value, an address, or a stack slot. */
    method Declare(d: Decl)
      requires Ready() && curr == 0
      modifies this
      ensures Ready() && curr == 0 && def.sealed == old(def.sealed)
      ensures CodePost(old(g), g, 0, Skeleton.Declare(c, d, old(g).blk[0]))
    {
      match KindOf(c.kinds, d) {
        case VarParam => SetVar(d, Arg(d), Arg(d));
        case AggregateParam => DeclareSlot(d, Arg(d));
        case AggregateLocal(zero) => DeclareSlot(d, Const(zero));
        case ScalarParam =>
          if d in c.promoted {
            var _ := PushInstr(StoreTo(SlotAddr(d), Arg(d)), StoreTo(SlotAddr(d), Arg(d)));
          } else {
            SetVar(d, Arg(d), Arg(d));
          }
        case ScalarLocal(zero) =>
          if d in c.promoted {
            var _ := PushInstr(StoreTo(SlotAddr(d), Const(zero)), StoreTo(SlotAddr(d), Const(zero)));
          } else {
            CodePostRefl(g, 0);
          }
        case Global => CodePostRefl(g, 0);
      }
    }

    /** A slot for an aggregate, filled with v. */
    method DeclareSlot(d: Decl, v: Value)
      requires Ready() && curr == 0 && (v.Arg? || v.Const?)
      modifies this
      ensures Ready() && curr == 0 && def.sealed == old(def.sealed)
      ensures CodePost(old(g), g, 0, Skeleton.DeclareSlot(d, v, old(g).blk[0]))
    {
      ghost var s := g;
      var _ := PushInstr(StoreAll(SlotAddr(d), v), StoreAll(SlotAddr(d), v));
      ghost var s1 := g;
      SetVar(d, SlotAddr(d), SlotAddr(d));
      CodePostTrans(s, s1, g, 0, s1.blk[0], g.blk[0]);
    }

    method DeclareAll(ds: seq<Decl>)
      requires Ready() && curr == 0
      modifies this
      ensures Ready() && curr == 0 && def.sealed == old(def.sealed)
      ensures CodePost(old(g), g, 0, AddDecls(c, ds, old(g).blk[0]))
    {
      CodePostRefl(g, 0);
      for i := 0 to |ds|
        invariant Ready() && curr == 0 && def.sealed == old(def.sealed)
        invariant CodePost(old(g), g, 0, AddDecls(c, ds[..i], old(g).blk[0]))
      {
        ghost var s1 := g;
        assert ds[..i + 1][..i] == ds[..i];
        Declare(ds[i]);
        CodePostTrans(old(g), s1, g, 0, AddDecls(c, ds[..i], old(g).blk[0]), g.blk[0]);
      }
      assert ds[..|ds|] == ds;
    }

    /** The entry block of p: its parameters, then its locals. */
    method DeclareEntry(p: Proc)
      requires Ready() && curr == 0 && g.blk == [FRESH] && g.preds == [[]]
      modifies this
      ensures Ready() && curr == 0 && g.preds == [[]]
      ensures g.blk == [AddDecls(c, p.locals, AddDecls(c, p.params, FRESH))]
    {
      DeclareAll(p.params);
      DeclareAll(p.locals);
    }

    /** The body of run, after the scan for VAR arguments. */
    method RunBody(p: Proc)
      requires Ready() && curr == 0 && g.blk == [FRESH] && g.preds == [[]]
      requires p.kinds == c.kinds && ReturnsLast(p.body) && EmittableStmts(c, p.body)
      modifies this
      ensures Settled() && g.blk == EmitProc(c, p).blocks && Complete(g)
    {
      DeclareEntry(p);
      ghost var s := g;
      EmitAdvances(c, p.body, Sk());
      EmitStmts(p.body);
      ghost var a := g;
      assert fn.blocks[curr] == BlockOf(g, curr);
      if fn.blocks[curr].term.Open? {
        Branch(RetVoid, RetVoid);
      }
      ghost var a1 := g;
      SealBlock(curr);
      BodyDone(c, p, s, a, a1, g, curr);
    }
  }

  /** Every block is sealed and terminated, and the entry has no predecessor. */
  ghost predicate Complete(s: Ssa) {
    && 0 < |s.blk| == |s.preds| && s.preds[0] == []
    && (forall b: Block :: b < |s.blk| ==> b in s.closed && !s.blk[b].term.Open?)
  }

  lemma BodyDone(c: Ctx, p: Proc, s: Ssa, a: Ssa, a1: Ssa, s1: Ssa, b: Block)
    requires var entry := AddDecls(c, p.locals, AddDecls(c, p.params, FRESH));
             && s.blk == [entry] && s.preds == [[]]
             && Skel(a.blk, b) == EmitStmts(c, p.body, Skel([entry], 0))
             && Advanced(Skel([entry], 0), Skel(a.blk, b))
    requires StmtPost(s, a, 0, b)
    requires if a.blk[b].term.Open? then a1 == SetTerm(a, b, RetVoid) else a1 == a
    requires SealPost(a1, s1, b)
    ensures s1.blk == EmitProc(c, p).blocks && Complete(s1)
  {
    forall x: Block | x < |s1.blk| ensures x in s1.closed && !s1.blk[x].term.Open? {
      if x != b && x != 0 { assert IsClosed(a, x); }
    }
  }
}
