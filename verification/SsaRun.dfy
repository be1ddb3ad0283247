/** Running SSA code, and why it does what the variable-level graph does: in a
    state with the invariant and no phi left to fill, both machines agree step
    by step, whatever the procedure is run with. */
module SsaRun {
  import opened Ir
  import opened Source
  import opened Machines
  import opened Skeleton
  import opened SsaState
  import opened SsaCode

  function IndexOf(xs: seq<Block>, x: Block): (i: nat)
    ensures i <= |xs|
    ensures x in xs ==> i < |xs| && xs[i] == x
  {
    if xs == [] || xs[0] == x then 0 else 1 + IndexOf(xs[1..], x)
  }

  /** What phi k becomes when control arrives from block prev. */
  function PhiVal(w: World, f: Program, k: Key, prev: Option<Block>, env: Env): Val
    requires k in f.phis
  {
    if prev.None? || k.block >= |f.blocks| then Undefined
    else
      var i := IndexOf(f.blocks[k.block].preds, prev.value);
      if i < |f.phis[k]| then Eval(w, env, f.phis[k][i]) else Undefined
  }

  /** All phis of block b take their new values at once. */
  function EnterPhis(w: World, f: Program, prev: Option<Block>, b: Block, env: Env): Env {
    env + map k | k in f.phis && k.block == b :: PhiRef(k) := PhiVal(w, f, k, prev, env)
  }

  /** A run of the emitted function about to enter block b from prev. */
  datatype SsaPoint = SsaPoint(prev: Option<Block>, b: Block, env: Env, m: Store)

  /** The phis and the code of the block the run is about to enter. */
  function EnterBlk(w: World, f: Program, p: SsaPoint): (Env, Store)
    requires p.b < |f.blocks|
  {
    ExecCode(w, f.blocks[p.b].code, p.b, EnterPhis(w, f, p.prev, p.b, p.env), p.m)
  }

  function NextSsa(w: World, f: Program, p: SsaPoint): Option<SsaPoint> {
    if p.b >= |f.blocks| then None
    else
      var (env, m1) := EnterBlk(w, f, p);
      match Successor(w, env, f.blocks[p.b].term)
      case Some(t) => Some(SsaPoint(Some(p.b), t, env, m1))
      case None => None
  }

  function HaltSsa(w: World, f: Program, p: SsaPoint): Outcome {
    if p.b >= |f.blocks| then Stuck
    else
      var (env, m1) := EnterBlk(w, f, p);
      Final(w, env, f.blocks[p.b].term, m1)
  }

  function SsaMachine(w: World, f: Program): Machine<SsaPoint> {
    Machine(p => NextSsa(w, f, p), p => HaltSsa(w, f, p))
  }

  // ----- agreement of the two machines -----

  /** A finished construction and the function it left. */
  ghost predicate Finished(s: Ssa, f: Program) {
    Inv(s) && s.pending == {} && f.phis == s.phis && IsCodeOf(s, f.blocks)
  }

  function VarVal(vars: Env, d: Decl): Val {
    if Entry(d) in vars then vars[Entry(d)] else Undefined
  }

  /** On entry to b, after its phis: every recorded value is the variable's. */
  ghost predicate SimIn(w: World, s: Ssa, b: Block, env: Env, vars: Env) {
    forall k: Key :: k in s.ins && k.block == b ==> Eval(w, env, s.ins[k]) == VarVal(vars, k.decl)
  }

  /** At the end of b: every recorded value is the variable's. */
  ghost predicate SimOut(w: World, s: Ssa, b: Block, env: Env, vars: Env) {
    forall d :: HasDef(s, Key(b, d)) ==> Eval(w, env, DefVal(s, Key(b, d))) == VarVal(vars, d)
  }

  /** After n instructions of b, corresponding operands have the same values. */
  ghost predicate Agree(w: World, s: Ssa, b: Block, n: nat, env: Env, envV: Env) {
    forall v {:trigger ClosedV(s.ins, b, n, v)} ::
      ClosedV(s.ins, b, n, v) ==> Eval(w, env, Subst(s.ins, b, v)) == Eval(w, envV, v)
  }

  lemma AgreeInstr(w: World, s: Ssa, b: Block, n: nat, env: Env, envV: Env, i: Instr<Value>)
    requires Agree(w, s, b, n, env, envV) && ClosedI(s.ins, b, n, i)
    ensures EvalInstr(w, env, SubstI(s.ins, b, i)) == EvalInstr(w, envV, i)
  {
    if i.Call? {
      var l := EvalActuals(w, env, SubstActuals(s.ins, b, i.args));
      var r := EvalActuals(w, envV, i.args);
      forall j | 0 <= j < |i.args| ensures l[j] == r[j] {
        assert ClosedV(s.ins, b, n, i.args[j].v);
      }
      assert l == r;
    }
  }

  /** No value recorded on entry to b is computed by b's own instructions. */
  ghost predicate NoneOwn(s: Ssa, b: Block) {
    forall k: Key :: k in s.ins && k.block == b && s.ins[k].Reg? ==> s.ins[k].block != b
  }

  lemma InvNoneOwn(s: Ssa, b: Block)
    requires Inv(s)
    ensures NoneOwn(s, b)
  {
    forall k: Key | k in s.ins && k.block == b && s.ins[k].Reg? ensures s.ins[k].block != b {
      assert InOk(s, k);
    }
  }

  lemma AgreeNext(w: World, s: Ssa, b: Block, n: nat, env: Env, envV: Env, x: Val)
    requires NoneOwn(s, b) && Agree(w, s, b, n, env, envV)
    ensures Agree(w, s, b, n + 1, env[Reg(b, n) := x], envV[Reg(b, n) := x])
  {
    forall v | ClosedV(s.ins, b, n + 1, v)
      ensures Eval(w, env[Reg(b, n) := x], Subst(s.ins, b, v)) == Eval(w, envV[Reg(b, n) := x], v)
    {
      if v != Reg(b, n) { assert ClosedV(s.ins, b, n, v); }
    }
  }

  lemma AgreeStart(w: World, s: Ssa, b: Block, env: Env, vars: Env)
    requires SimIn(w, s, b, env, vars)
    ensures Agree(w, s, b, 0, env, vars)
  {
  }

  /** Straight-line code of a block does the same in both. */
  lemma {:induction false} CodeSim(w: World, s: Ssa, b: Block, code: seq<Instr<Value>>, codeS: seq<Instr<Value>>,
                                   env: Env, envV: Env, m: Store)
    requires NoneOwn(s, b) && Agree(w, s, b, 0, env, envV) && |codeS| == |code|
    requires forall j :: 0 <= j < |code| ==> ClosedI(s.ins, b, j, code[j]) && codeS[j] == SubstI(s.ins, b, code[j])
    ensures ExecCode(w, codeS, b, env, m).1 == ExecCode(w, code, b, envV, m).1
    ensures Agree(w, s, b, |code|, ExecCode(w, codeS, b, env, m).0, ExecCode(w, code, b, envV, m).0)
    decreases |code|
  {
    if code != [] {
      var n := |code| - 1;
      CodeSim(w, s, b, code[..n], codeS[..n], env, envV, m);
      var (e, m1) := ExecCode(w, codeS[..n], b, env, m);
      var eV := ExecCode(w, code[..n], b, envV, m).0;
      AgreeStep(w, s, b, n, e, eV, code[n], m1);
    }
  }

  lemma AgreeStep(w: World, s: Ssa, b: Block, n: nat, e: Env, eV: Env, i: Instr<Value>, m: Store)
    requires NoneOwn(s, b) && Agree(w, s, b, n, e, eV) && ClosedI(s.ins, b, n, i)
    ensures var (x, m1) := Perform(w, EvalInstr(w, e, SubstI(s.ins, b, i)), m);
            var (xV, m2) := Perform(w, EvalInstr(w, eV, i), m);
            x == xV && m1 == m2 && Agree(w, s, b, n + 1, e[Reg(b, n) := x], eV[Reg(b, n) := xV])
  {
    AgreeInstr(w, s, b, n, e, eV, i);
    AgreeNext(w, s, b, n, e, eV, Perform(w, EvalInstr(w, eV, i), m).0);
  }

  /** A whole block: same memory, same decision, and the recorded values are
      again the variables'. */
  lemma BlockSim(w: World, s: Ssa, b: Block, env: Env, vars: Env, m: Store)
    requires NoneOwn(s, b) && b < |s.blk| && ClosedBlock(s.ins, b, s.blk[b]) && SimIn(w, s, b, env, vars)
    ensures var (e, m1) := ExecCode(w, SubstCode(s.ins, b, s.blk[b].code), b, env, m);
            var (eV, m2) := ExecCode(w, s.blk[b].code, b, vars, m);
            && m1 == m2
            && Successor(w, e, SubstT(s.ins, b, s.blk[b].term)) == Successor(w, eV, s.blk[b].term)
            && Final(w, e, SubstT(s.ins, b, s.blk[b].term), m1) == Final(w, eV, s.blk[b].term, m2)
            && SimOut(w, s, b, e, NextVars(w, s.blk[b], vars, eV))
  {
    var blk := s.blk[b];
    var codeS := SubstCode(s.ins, b, blk.code);
    AgreeStart(w, s, b, env, vars);
    CodeSim(w, s, b, blk.code, codeS, env, vars, m);
    var e := ExecCode(w, codeS, b, env, m).0;
    var eV := ExecCode(w, blk.code, b, vars, m).0;
    AgreeTerm(w, s, b, |blk.code|, e, eV, blk.term);
    EntriesKept(w, blk.code, b, vars, m);
    AgreeOut(w, s, b, e, eV, vars);
  }

  lemma EntriesKept(w: World, code: seq<Instr<Value>>, b: Block, vars: Env, m: Store)
    ensures forall d :: Eval(w, ExecCode(w, code, b, vars, m).0, Entry(d)) == VarVal(vars, d)
  {
    forall d ensures Eval(w, ExecCode(w, code, b, vars, m).0, Entry(d)) == VarVal(vars, d) {
      EntryKept(w, code, b, vars, m, d);
    }
  }

  lemma AgreeTerm(w: World, s: Ssa, b: Block, n: nat, e: Env, eV: Env, t: Term<Value>)
    requires Agree(w, s, b, n, e, eV) && ClosedT(s.ins, b, n, t)
    ensures Successor(w, e, SubstT(s.ins, b, t)) == Successor(w, eV, t)
    ensures forall m :: Final(w, e, SubstT(s.ins, b, t), m) == Final(w, eV, t, m)
  {
  }

  lemma AgreeOut(w: World, s: Ssa, b: Block, e: Env, eV: Env, vars: Env)
    requires b < |s.blk| && ClosedBlock(s.ins, b, s.blk[b]) && Agree(w, s, b, |s.blk[b].code|, e, eV)
    requires forall d :: Eval(w, eV, Entry(d)) == VarVal(vars, d)
    ensures SimOut(w, s, b, e, NextVars(w, s.blk[b], vars, eV))
  {
    var vars1 := NextVars(w, s.blk[b], vars, eV);
    forall d | HasDef(s, Key(b, d)) ensures Eval(w, e, DefVal(s, Key(b, d))) == VarVal(vars1, d) {
      if d in s.blk[b].out {
        assert ClosedV(s.ins, b, |s.blk[b].code|, s.blk[b].out[d]);
      } else {
        assert ClosedV(s.ins, b, |s.blk[b].code|, Entry(d));
      }
    }
  }

  /** Taking an edge: the phis of the target turn the values recorded at its
      source into the ones recorded on its entry. */
  lemma EdgeSim(w: World, s: Ssa, f: Program, p: Block, b: Block, env: Env, vars: Env)
    requires Finished(s, f) && b < |s.blk| && p in s.preds[b] && SimOut(w, s, p, env, vars)
    ensures SimIn(w, s, b, EnterPhis(w, f, Some(p), b, env), vars)
  {
    var env1 := EnterPhis(w, f, Some(p), b, env);
    var i := IndexOf(s.preds[b], p);
    assert f.blocks[b] == BlockOf(s, b);
    forall k: Key | k in s.ins && k.block == b ensures Eval(w, env1, s.ins[k]) == VarVal(vars, k.decl) {
      assert InOk(s, k);
      if k in s.phis {
        assert PhiOk(s, k);
        assert FlowsIn(s, k, i, s.phis[k][i]);
      } else {
        assert FlowsIn(s, k, i, s.ins[k]);
      }
    }
  }

  /** Where there is no edge, every variable is undefined. */
  lemma EntrySim(w: World, s: Ssa, f: Program, b: Block)
    requires Finished(s, f) && b < |s.blk| && s.preds[b] == []
    ensures SimIn(w, s, b, EnterPhis(w, f, None, b, map[]), map[])
  {
    forall k: Key | k in s.ins && k.block == b
      ensures Eval(w, EnterPhis(w, f, None, b, map[]), s.ins[k]) == VarVal(map[], k.decl)
    {
      assert InOk(s, k);
    }
  }

  /** The two runs are at corresponding points. */
  ghost predicate Alike(w: World, s: Ssa, f: Program, p: SsaPoint, q: Point) {
    p.b == q.b < |s.blk| && p.m == q.m && SimIn(w, s, p.b, EnterPhis(w, f, p.prev, p.b, p.env), q.v)
  }

  /** A block of the emitted function does what its variable-level form does. */
  lemma BlockStep(w: World, s: Ssa, f: Program, b: Block, env: Env, vars: Env, m: Store)
    requires Finished(s, f) && b < |s.blk| && SimIn(w, s, b, env, vars)
    ensures |f.blocks| == |s.blk|
    ensures var (e, m1) := ExecCode(w, f.blocks[b].code, b, env, m);
            var (eV, m2) := ExecCode(w, s.blk[b].code, b, vars, m);
            && m1 == m2
            && Successor(w, e, f.blocks[b].term) == Successor(w, eV, s.blk[b].term)
            && Final(w, e, f.blocks[b].term, m1) == Final(w, eV, s.blk[b].term, m2)
            && SimOut(w, s, b, e, NextVars(w, s.blk[b], vars, eV))
  {
    InvNoneOwn(s, b);
    assert ClosedBlock(s.ins, b, s.blk[b]);
    assert f.blocks[b] == BlockOf(s, b);
    BlockSim(w, s, b, env, vars, m);
  }

  lemma SuccessorSim(w: World, s: Ssa, f: Program, b: Block, t: Block, e: Env, eV: Env, vars: Env)
    requires Finished(s, f) && b < |s.blk| && SimOut(w, s, b, e, vars)
    requires Successor(w, eV, s.blk[b].term) == Some(t)
    ensures t < |s.blk| && SimIn(w, s, t, EnterPhis(w, f, Some(b), t, e), vars)
  {
    assert EdgesOk(s, b);
    assert Leads(s.blk[b].term, t);
    EdgeSim(w, s, f, b, t, e, vars);
  }

  /** Corresponding points have corresponding successors, or halt alike. */
  lemma StepAlike(w: World, s: Ssa, f: Program, p: SsaPoint, q: Point)
    requires Finished(s, f) && Alike(w, s, f, p, q)
    ensures HaltSsa(w, f, p) == HaltPoint(w, s.blk, q)
    ensures NextSsa(w, f, p).Some? <==> NextPoint(w, s.blk, q).Some?
    ensures NextSsa(w, f, p).Some? ==> Alike(w, s, f, NextSsa(w, f, p).value, NextPoint(w, s.blk, q).value)
  {
    var env := EnterPhis(w, f, p.prev, p.b, p.env);
    BlockStep(w, s, f, p.b, env, q.v, p.m);
    var e := ExecCode(w, f.blocks[p.b].code, p.b, env, p.m).0;
    var eV := ExecCode(w, s.blk[p.b].code, p.b, q.v, q.m).0;
    var next := Successor(w, eV, s.blk[p.b].term);
    if next.Some? {
      SuccessorSim(w, s, f, p.b, next.value, e, eV, NextVars(w, s.blk[p.b], q.v, eV));
    }
  }

  /** Started at the entry block, the emitted function and the graph over
      variables have the same outcome after any number of steps. */
  lemma SsaRefinesGraph(w: World, s: Ssa, f: Program, m: Store, fuel: nat)
    requires Finished(s, f) && 0 < |s.blk| && s.preds[0] == []
    ensures Run(SsaMachine(w, f), SsaPoint(None, 0, map[], m), fuel) ==
            Run(GraphMachine(w, s.blk), Point(0, map[], m), fuel)
  {
    EntrySim(w, s, f, 0);
    forall p, q | Alike(w, s, f, p, q)
      ensures HaltSsa(w, f, p) == HaltPoint(w, s.blk, q)
      ensures match (NextSsa(w, f, p), NextPoint(w, s.blk, q))
              case (Some(p1), Some(q1)) => Alike(w, s, f, p1, q1)
              case (None, None) => true
              case _ => false
    {
      StepAlike(w, s, f, p, q);
    }
    Lockstep(SsaMachine(w, f), GraphMachine(w, s.blk), (p, q) => Alike(w, s, f, p, q),
             SsaPoint(None, 0, map[], m), Point(0, map[], m), fuel);
  }

  /** Replacing a trivial phi by its operand everywhere changes no run. */
  lemma RemovalKeepsRuns(w: World, s: Ssa, f: Program, k: Key, v: Value, m: Store, fuel: nat)
    requires Finished(s, f) && 0 < |s.blk| && s.preds[0] == []
    requires k in s.phis && v != PhiRef(k) && TrivialOps(k, s.phis[k], v) && (s.phis[k] == [] ==> v == Const(Undefined))
    ensures var f1 := Program(ReplBlocks(k, v, f.blocks), ReplPhis(k, v, f.phis));
            && Finished(RemovePhi(s, k, v), f1)
            && Run(SsaMachine(w, f1), SsaPoint(None, 0, map[], m), fuel) ==
              Run(SsaMachine(w, f), SsaPoint(None, 0, map[], m), fuel)
  {
    var s1, f1 := RemovePhi(s, k, v), Program(ReplBlocks(k, v, f.blocks), ReplPhis(k, v, f.phis));
    RemoveKeepsInv(s, k, v);
    CodeAfterRemove(s, k, v, f.blocks, f1.blocks);
    SsaRefinesGraph(w, s, f, m, fuel);
    SsaRefinesGraph(w, s1, f1, m, fuel);
  }

  // ----- along any path of the graph, taken or not -----

  ghost predicate IsPath(s: Ssa, path: seq<Block>) {
    && path != [] && path[0] < |s.preds| && s.preds[path[0]] == []
    && (forall i :: 0 <= i < |path| ==> path[i] < |s.preds|)
    && (forall i :: 0 < i < |path| ==> path[i - 1] in s.preds[path[i]])
  }

  /** The variables and memory after executing the blocks of a path in turn:
      each variable holds what the last write to it on the path put there. */
  function WalkV(w: World, blocks: seq<VBlock>, path: seq<Block>, m: Store): (Env, Store) {
    if path == [] then (map[], m)
    else
      var n := |path| - 1;
      var (vars, m1) := WalkV(w, blocks, path[..n], m);
      if path[n] >= |blocks| then (vars, m1)
      else
        var (env, m2) := ExecCode(w, blocks[path[n]].code, path[n], vars, m1);
        (NextVars(w, blocks[path[n]], vars, env), m2)
  }

  function WalkS(w: World, f: Program, path: seq<Block>, m: Store): (Env, Store) {
    if path == [] then (map[], m)
    else
      var n := |path| - 1;
      var (env, m1) := WalkS(w, f, path[..n], m);
      if path[n] >= |f.blocks| then (env, m1)
      else
        var prev := if n == 0 then None else Some(path[n - 1]);
        ExecCode(w, f.blocks[path[n]].code, path[n], EnterPhis(w, f, prev, path[n], env), m1)
  }

  /** Along every path from a block without predecessors, the SSA value recorded
      for a variable evaluates to the variable's last write on that path. */
  lemma {:induction false} RecordedValueIsLastWrite(w: World, s: Ssa, f: Program, path: seq<Block>, m: Store)
    requires Finished(s, f) && IsPath(s, path)
    ensures WalkS(w, f, path, m).1 == WalkV(w, s.blk, path, m).1
    ensures SimOut(w, s, path[|path| - 1], WalkS(w, f, path, m).0, WalkV(w, s.blk, path, m).0)
    decreases |path|
  {
    var n := |path| - 1;
    var b := path[n];
    assert f.blocks[b] == BlockOf(s, b);
    assert ClosedBlock(s.ins, b, s.blk[b]);
    InvNoneOwn(s, b);
    if n == 0 {
      EntrySim(w, s, f, b);
      assert path[..0] == [];
      BlockSim(w, s, b, EnterPhis(w, f, None, b, map[]), map[], m);
    } else {
      RecordedValueIsLastWrite(w, s, f, path[..n], m);
      var (env, m1) := WalkS(w, f, path[..n], m);
      var (vars, m2) := WalkV(w, s.blk, path[..n], m);
      EdgeSim(w, s, f, path[n - 1], b, env, vars);
      BlockSim(w, s, b, EnterPhis(w, f, Some(path[n - 1]), b, env), vars, m1);
    }
  }
}
