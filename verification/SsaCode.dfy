/** SSA code: what the variable-level graph becomes once every Entry(d) is
    replaced, and how replacing a phi everywhere acts on it. */
module SsaCode {
  import opened Ir
  import opened Skeleton
  import opened SsaState

  datatype BasicBlock = BasicBlock(code: seq<Instr<Value>>, term: Term<Value>, preds: seq<Block>)

  /** The emitted function. Operand i of a phi comes from predecessor i. */
  datatype Program = Program(blocks: seq<BasicBlock>, phis: map<Key, seq<Value>>)

  // ----- substitution for Entry -----

  function SubstActual(ins: map<Key, Value>, b: Block, a: Actual<Value>): Actual<Value> {
    match a
    case ByVal(v) => ByVal(Subst(ins, b, v))
    case ByRef(v) => ByRef(Subst(ins, b, v))
  }

  function SubstActuals(ins: map<Key, Value>, b: Block, args: seq<Actual<Value>>): (r: seq<Actual<Value>>)
    ensures |r| == |args|
    ensures forall j :: 0 <= j < |r| ==> r[j] == SubstActual(ins, b, args[j])
  {
    seq(|args|, j requires 0 <= j < |args| => SubstActual(ins, b, args[j]))
  }

  function SubstI(ins: map<Key, Value>, b: Block, i: Instr<Value>): Instr<Value> {
    match i
    case Bin(op, l, r) => Bin(op, Subst(ins, b, l), Subst(ins, b, r))
    case Un(op, v) => Un(op, Subst(ins, b, v))
    case Load(a) => Load(Subst(ins, b, a))
    case StoreTo(a, v) => StoreTo(Subst(ins, b, a), Subst(ins, b, v))
    case LoadAll(a) => LoadAll(Subst(ins, b, a))
    case StoreAll(a, v) => StoreAll(Subst(ins, b, a), Subst(ins, b, v))
    case CopyAll(to, from) => CopyAll(Subst(ins, b, to), Subst(ins, b, from))
    case Gep(a, x) => Gep(Subst(ins, b, a), Subst(ins, b, x))
    case SlotOf(a, k) => SlotOf(Subst(ins, b, a), k)
    case Call(f, args) => Call(Subst(ins, b, f), SubstActuals(ins, b, args))
  }

  function SubstT(ins: map<Key, Value>, b: Block, t: Term<Value>): Term<Value> {
    match t
    case CondBr(c, yes, no) => CondBr(Subst(ins, b, c), yes, no)
    case Ret(v) => Ret(Subst(ins, b, v))
    case _ => t
  }

  function SubstCode(ins: map<Key, Value>, b: Block, code: seq<Instr<Value>>): (r: seq<Instr<Value>>)
    ensures |r| == |code|
    ensures forall j :: 0 <= j < |r| ==> r[j] == SubstI(ins, b, code[j])
  {
    seq(|code|, j requires 0 <= j < |code| => SubstI(ins, b, code[j]))
  }

  /** The SSA form of block b. */
  function BlockOf(s: Ssa, b: Block): BasicBlock
    requires b < |s.blk| == |s.preds|
  {
    BasicBlock(SubstCode(s.ins, b, s.blk[b].code), SubstT(s.ins, b, s.blk[b].term), s.preds[b])
  }

  ghost predicate IsCodeOf(s: Ssa, blocks: seq<BasicBlock>)
    requires |s.blk| == |s.preds|
  {
    |blocks| == |s.blk| && forall b {:trigger BlockOf(s, b)} :: 0 <= b < |blocks| ==> blocks[b] == BlockOf(s, b)
  }

  // ----- replaceAllUsesWith on code -----

  function ReplActual(k: Key, v: Value, a: Actual<Value>): Actual<Value> {
    match a
    case ByVal(x) => ByVal(ReplV(k, v, x))
    case ByRef(x) => ByRef(ReplV(k, v, x))
  }

  function ReplActuals(k: Key, v: Value, args: seq<Actual<Value>>): (r: seq<Actual<Value>>)
    ensures |r| == |args|
    ensures forall j :: 0 <= j < |r| ==> r[j] == ReplActual(k, v, args[j])
  {
    seq(|args|, j requires 0 <= j < |args| => ReplActual(k, v, args[j]))
  }

  function ReplI(k: Key, v: Value, i: Instr<Value>): Instr<Value> {
    match i
    case Bin(op, l, r) => Bin(op, ReplV(k, v, l), ReplV(k, v, r))
    case Un(op, x) => Un(op, ReplV(k, v, x))
    case Load(a) => Load(ReplV(k, v, a))
    case StoreTo(a, x) => StoreTo(ReplV(k, v, a), ReplV(k, v, x))
    case LoadAll(a) => LoadAll(ReplV(k, v, a))
    case StoreAll(a, x) => StoreAll(ReplV(k, v, a), ReplV(k, v, x))
    case CopyAll(to, from) => CopyAll(ReplV(k, v, to), ReplV(k, v, from))
    case Gep(a, x) => Gep(ReplV(k, v, a), ReplV(k, v, x))
    case SlotOf(a, n) => SlotOf(ReplV(k, v, a), n)
    case Call(f, args) => Call(ReplV(k, v, f), ReplActuals(k, v, args))
  }

  function ReplT(k: Key, v: Value, t: Term<Value>): Term<Value> {
    match t
    case CondBr(c, yes, no) => CondBr(ReplV(k, v, c), yes, no)
    case Ret(x) => Ret(ReplV(k, v, x))
    case _ => t
  }

  function ReplCode(k: Key, v: Value, code: seq<Instr<Value>>): (r: seq<Instr<Value>>)
    ensures |r| == |code|
    ensures forall j :: 0 <= j < |r| ==> r[j] == ReplI(k, v, code[j])
  {
    seq(|code|, j requires 0 <= j < |code| => ReplI(k, v, code[j]))
  }

  function ReplBlock(k: Key, v: Value, b: BasicBlock): BasicBlock {
    BasicBlock(ReplCode(k, v, b.code), ReplT(k, v, b.term), b.preds)
  }

  function ReplBlocks(k: Key, v: Value, bs: seq<BasicBlock>): (r: seq<BasicBlock>)
    ensures |r| == |bs|
    ensures forall b :: 0 <= b < |bs| ==> r[b] == ReplBlock(k, v, bs[b])
  {
    seq(|bs|, b requires 0 <= b < |bs| => ReplBlock(k, v, bs[b]))
  }

  lemma ReplInstr(ins: map<Key, Value>, b: Block, n: nat, k: Key, v: Value, i: Instr<Value>)
    requires ClosedI(ins, b, n, i)
    ensures ReplI(k, v, SubstI(ins, b, i)) == SubstI(ReplIns(k, v, ins), b, i)
  {
    if i.Call? {
      var l := ReplActuals(k, v, SubstActuals(ins, b, i.args));
      var r := SubstActuals(ReplIns(k, v, ins), b, i.args);
      forall j | 0 <= j < |i.args| ensures l[j] == r[j] {
        assert ClosedV(ins, b, n, i.args[j].v);
      }
      assert l == r;
    }
  }

  /** Replacing a phi in the code is the same as replacing it in `ins`. */
  lemma CodeAfterRemove(s: Ssa, k: Key, v: Value, blocks: seq<BasicBlock>, blocks1: seq<BasicBlock>)
    requires Inv(s) && IsCodeOf(s, blocks)
    requires |blocks1| == |blocks| && forall b :: 0 <= b < |blocks| ==> blocks1[b] == ReplBlock(k, v, blocks[b])
    ensures IsCodeOf(RemovePhi(s, k, v), blocks1)
  {
    var s1 := RemovePhi(s, k, v);
    forall b | 0 <= b < |blocks1| ensures blocks1[b] == BlockOf(s1, b) {
      assert ClosedBlock(s.ins, b, s.blk[b]);
      assert blocks[b] == BlockOf(s, b);
      var code := s.blk[b].code;
      forall j | 0 <= j < |code| ensures blocks1[b].code[j] == SubstI(s1.ins, b, code[j]) {
        assert ClosedI(s.ins, b, j, code[j]);
        ReplInstr(s.ins, b, j, k, v, code[j]);
      }
      assert blocks1[b].code == SubstCode(s1.ins, b, code);
    }
  }

  lemma SubstInstrStable(ins: map<Key, Value>, ins1: map<Key, Value>, b: Block, n: nat, i: Instr<Value>)
    requires ClosedI(ins, b, n, i)
    requires forall k :: k in ins ==> k in ins1 && ins1[k] == ins[k]
    ensures SubstI(ins1, b, i) == SubstI(ins, b, i)
  {
    if i.Call? {
      forall j | 0 <= j < |i.args|
        ensures SubstActuals(ins1, b, i.args)[j] == SubstActuals(ins, b, i.args)[j]
      {
        assert ClosedV(ins, b, n, i.args[j].v);
      }
      assert SubstActuals(ins1, b, i.args) == SubstActuals(ins, b, i.args);
    }
  }

  /** Asking for more variables changes no code. */
  lemma BlockStable(ins: map<Key, Value>, ins1: map<Key, Value>, b: Block, blk: VBlock)
    requires ClosedBlock(ins, b, blk)
    requires forall k :: k in ins ==> k in ins1 && ins1[k] == ins[k]
    ensures SubstCode(ins1, b, blk.code) == SubstCode(ins, b, blk.code)
    ensures SubstT(ins1, b, blk.term) == SubstT(ins, b, blk.term)
    ensures forall d :: d in blk.out ==> Subst(ins1, b, blk.out[d]) == Subst(ins, b, blk.out[d])
  {
    forall j | 0 <= j < |blk.code| ensures SubstCode(ins1, b, blk.code)[j] == SubstCode(ins, b, blk.code)[j] {
      assert ClosedI(ins, b, j, blk.code[j]);
      SubstInstrStable(ins, ins1, b, j, blk.code[j]);
    }
    forall d | d in blk.out ensures Subst(ins1, b, blk.out[d]) == Subst(ins, b, blk.out[d]) {
      assert ClosedV(ins, b, |blk.code|, blk.out[d]);
    }
  }
}
