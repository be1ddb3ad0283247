/** What the SSA builder knows at any moment, as a value, and the invariant that
    ties it to the variable-level graph. `ins` gives the SSA value a variable has
    on entry to a block, for the variables somebody has asked for there; SSA code
    is the variable-level code with Entry(d) replaced by it. */
module SsaState {
  import opened Ir
  import opened Skeleton

  datatype Ssa = Ssa(
    blk: seq<VBlock>,            // the variable-level graph so far
    preds: seq<seq<Block>>,      // incoming edges, oldest first
    rank: map<Block, nat>,       // blocks emission has entered, in order of entry
    closed: set<Block>,          // blocks that get no further edge
    ins: map<Key, Value>,
    phis: map<Key, seq<Value>>,  // live phis and the operands they have so far
    pending: set<Key>            // phis whose operands are not all there
  )

  function Subst(ins: map<Key, Value>, b: Block, v: Value): Value {
    if v.Entry? && Key(b, v.decl) in ins then ins[Key(b, v.decl)] else v
  }

  predicate HasDef(s: Ssa, k: Key) {
    k.block < |s.blk| && (k.decl in s.blk[k.block].out || k in s.ins)
  }

  /** The SSA value of a variable at the end of a block: CurrentDef[BB].Defs. */
  function DefVal(s: Ssa, k: Key): Value
    requires HasDef(s, k)
  {
    if k.decl in s.blk[k.block].out then Subst(s.ins, k.block, s.blk[k.block].out[k.decl])
    else s.ins[k]
  }

  // ----- the invariant -----

  /** A variable-level operand of block b that follows n instructions. */
  predicate ClosedV(ins: map<Key, Value>, b: Block, n: nat, v: Value) {
    match v
    case Const(_) => true
    case Arg(_) => true
    case Reg(b1, j) => b1 == b && j < n
    case Entry(d) => Key(b, d) in ins
    case PhiRef(_) => false
  }

  predicate ClosedActuals(ins: map<Key, Value>, b: Block, n: nat, args: seq<Actual<Value>>) {
    forall j :: 0 <= j < |args| ==> ClosedV(ins, b, n, args[j].v)
  }

  predicate ClosedI(ins: map<Key, Value>, b: Block, n: nat, i: Instr<Value>) {
    match i
    case Bin(_, l, r) => ClosedV(ins, b, n, l) && ClosedV(ins, b, n, r)
    case Un(_, v) => ClosedV(ins, b, n, v)
    case Load(a) => ClosedV(ins, b, n, a)
    case StoreTo(a, v) => ClosedV(ins, b, n, a) && ClosedV(ins, b, n, v)
    case LoadAll(a) => ClosedV(ins, b, n, a)
    case StoreAll(a, v) => ClosedV(ins, b, n, a) && ClosedV(ins, b, n, v)
    case CopyAll(to, from) => ClosedV(ins, b, n, to) && ClosedV(ins, b, n, from)
    case Gep(a, x) => ClosedV(ins, b, n, a) && ClosedV(ins, b, n, x)
    case SlotOf(a, _) => ClosedV(ins, b, n, a)
    case Call(f, args) => ClosedV(ins, b, n, f) && ClosedActuals(ins, b, n, args)
  }

  predicate ClosedT(ins: map<Key, Value>, b: Block, n: nat, t: Term<Value>) {
    match t
    case CondBr(c, _, _) => ClosedV(ins, b, n, c)
    case Ret(v) => ClosedV(ins, b, n, v)
    case _ => true
  }

  ghost predicate ClosedBlock(ins: map<Key, Value>, b: Block, blk: VBlock) {
    && (forall j :: 0 <= j < |blk.code| ==> ClosedI(ins, b, j, blk.code[j]))
    && (forall d :: d in blk.out ==> ClosedV(ins, b, |blk.code|, blk.out[d]))
    && ClosedT(ins, b, |blk.code|, blk.term)
  }

  /** v is live and computed in a block entered before b. */
  predicate Below(s: Ssa, v: Value, b: Block)
    requires b in s.rank
  {
    match v
    case Const(_) => true
    case Arg(_) => true
    case Reg(b1, _) => b1 in s.rank && s.rank[b1] < s.rank[b]
    case PhiRef(k) => k in s.phis && k.block in s.rank && s.rank[k.block] < s.rank[b]
    case Entry(_) => false
  }

  /** At the end of predecessor i of its block, variable k.decl is v. */
  predicate FlowsIn(s: Ssa, k: Key, i: nat, v: Value)
    requires k.block < |s.preds| && i < |s.preds[k.block]|
  {
    var q := Key(s.preds[k.block][i], k.decl);
    HasDef(s, q) && DefVal(s, q) == v
  }

  predicate InOk(s: Ssa, k: Key)
    requires k in s.ins
  {
    && k.block in s.rank && k.block < |s.preds|
    && if k in s.phis then
         && s.ins[k] == PhiRef(k)
         && |s.phis[k]| <= |s.preds[k.block]|
         && forall i {:trigger FlowsIn(s, k, i, s.phis[k][i])} ::
           0 <= i < |s.phis[k]| ==> FlowsIn(s, k, i, s.phis[k][i])
       else
         && k.block in s.closed
         && Below(s, s.ins[k], k.block)
         && (s.preds[k.block] == [] ==> s.ins[k] == Const(Undefined))
         && forall i {:trigger FlowsIn(s, k, i, s.ins[k])} :: 0 <= i < |s.preds[k.block]| ==> FlowsIn(s, k, i, s.ins[k])
  }

  predicate Leads(t: Term<Value>, to: Block) {
    match t
    case Br(x) => x == to
    case CondBr(_, yes, no) => yes == to || no == to
    case _ => false
  }

  /** The edges into b: one from each entered block that branches to b, the
      oldest from a block entered before b. */
  ghost predicate EdgesOk(s: Ssa, b: Block)
    requires b < |s.preds| == |s.blk|
  {
    && (forall i :: 0 <= i < |s.preds[b]| ==>
          s.preds[b][i] in s.rank && s.preds[b][i] < |s.blk| && Leads(s.blk[s.preds[b][i]].term, b))
    && (b in s.rank && s.preds[b] != [] ==> s.rank[s.preds[b][0]] < s.rank[b])
    && (forall to: Block :: Leads(s.blk[b].term, to) ==> to < |s.preds| && b in s.preds[to])
  }

  ghost predicate Shape(s: Ssa) {
    && |s.preds| == |s.blk|
    && (forall b :: b in s.rank ==> b < |s.blk| && s.rank[b] < |s.rank|)
    && s.closed <= s.rank.Keys
    && (forall b {:trigger EdgesOk(s, b)} :: 0 <= b < |s.preds| ==> EdgesOk(s, b))
  }

  predicate PhiOk(s: Ssa, k: Key)
    requires k in s.phis
  {
    && k in s.ins
    && (k !in s.pending ==> k.block in s.closed && k.block < |s.preds| && |s.phis[k]| == |s.preds[k.block]|)
    && (k.block !in s.closed ==> s.phis[k] == [])
  }

  ghost predicate Inv(s: Ssa) {
    && Shape(s)
    && (forall k {:trigger InOk(s, k)} :: k in s.ins ==> InOk(s, k))
    && (forall k {:trigger PhiOk(s, k)} :: k in s.phis ==> PhiOk(s, k))
    && s.pending <= s.phis.Keys
    && (forall b {:trigger ClosedBlock(s.ins, b, s.blk[b])} :: 0 <= b < |s.blk| ==> ClosedBlock(s.ins, b, s.blk[b]))
    && (forall b :: 0 <= b < |s.blk| && b !in s.rank ==> s.blk[b] == FRESH)
  }

  /** All operands are one value, or the phi itself. */
  predicate TrivialOps(k: Key, ops: seq<Value>, v: Value) {
    forall i :: 0 <= i < |ops| ==> ops[i] == v || ops[i] == PhiRef(k)
  }

  ghost predicate Trivial(k: Key, ops: seq<Value>) {
    exists v :: v != PhiRef(k) && TrivialOps(k, ops, v)
  }

  /** No phi is trivial, except those still filling and those in x. */
  ghost predicate Minimal(s: Ssa, x: set<Key>) {
    forall k :: k in s.phis && k !in s.pending && k !in x ==> !Trivial(k, s.phis[k])
  }

  // ----- facts every state with the invariant has -----

  /** A recorded value is live and not computed after its block. */
  lemma DefValLive(s: Ssa, k: Key)
    requires Inv(s) && HasDef(s, k) && k.block in s.rank
    ensures match DefVal(s, k)
            case Const(_) => true
            case Arg(_) => true
            case Reg(b, _) => b in s.rank && s.rank[b] <= s.rank[k.block]
            case PhiRef(q) => q in s.phis && q.block in s.rank && s.rank[q.block] <= s.rank[k.block]
            case Entry(_) => false
  {
    assert ClosedBlock(s.ins, k.block, s.blk[k.block]);
    if k.decl in s.blk[k.block].out {
      var v := s.blk[k.block].out[k.decl];
      if v.Entry? { assert InOk(s, Key(k.block, v.decl)); }
    } else {
      assert InOk(s, k);
    }
  }

  /** Everything an operand names is live. */
  predicate Live(s: Ssa, v: Value) {
    v.PhiRef? ==> v.key in s.phis
  }

  lemma OpsLive(s: Ssa, k: Key, i: nat)
    requires Inv(s) && k in s.phis && i < |s.phis[k]|
    ensures Live(s, s.phis[k][i])
  {
    assert PhiOk(s, k) && InOk(s, k);
    assert FlowsIn(s, k, i, s.phis[k][i]);
    assert EdgesOk(s, k.block);
    DefValLive(s, Key(s.preds[k.block][i], k.decl));
  }

  // ----- replacing a phi -----

  function ReplV(k: Key, v: Value, x: Value): Value {
    if x == PhiRef(k) then v else x
  }

  function ReplOps(k: Key, v: Value, xs: seq<Value>): (r: seq<Value>)
    ensures |r| == |xs|
    ensures forall i :: 0 <= i < |xs| ==> r[i] == ReplV(k, v, xs[i])
  {
    seq(|xs|, i requires 0 <= i < |xs| => ReplV(k, v, xs[i]))
  }

  function ReplIns(k: Key, v: Value, ins: map<Key, Value>): map<Key, Value> {
    map q | q in ins :: ReplV(k, v, ins[q])
  }

  /** The phis without k, its uses in the others replaced. */
  function ReplPhis(k: Key, v: Value, phis: map<Key, seq<Value>>): map<Key, seq<Value>> {
    map q | q in phis && q != k :: ReplOps(k, v, phis[q])
  }

  /** replaceAllUsesWith and eraseFromParent, on this view of the state. */
  function RemovePhi(s: Ssa, k: Key, v: Value): Ssa {
    s.(ins := ReplIns(k, v, s.ins),
       phis := ReplPhis(k, v, s.phis))
  }

  lemma DefValAfterRemove(s: Ssa, k: Key, v: Value, q: Key)
    requires Inv(s) && HasDef(s, q)
    ensures HasDef(RemovePhi(s, k, v), q)
    ensures DefVal(RemovePhi(s, k, v), q) == ReplV(k, v, DefVal(s, q))
  {
    assert ClosedBlock(s.ins, q.block, s.blk[q.block]);
  }

  /** Any trivial phi that has all its operands is replaced by a value computed
      in an earlier block; this is why no replacement can be stale. */
  lemma TrivialIsBelow(s: Ssa, k: Key, v: Value)
    requires Inv(s) && k in s.phis && k !in s.pending
    requires v != PhiRef(k) && TrivialOps(k, s.phis[k], v)
    requires s.phis[k] == [] ==> v == Const(Undefined)
    ensures k.block in s.rank && Below(s, v, k.block)
    ensures s.phis[k] != [] ==> s.phis[k][0] == v
  {
    assert PhiOk(s, k) && InOk(s, k);
    if s.phis[k] != [] {
      assert FlowsIn(s, k, 0, s.phis[k][0]);
      assert EdgesOk(s, k.block);
      DefValLive(s, Key(s.preds[k.block][0], k.decl));
    }
  }

  lemma RemoveKeepsInv(s: Ssa, k: Key, v: Value)
    requires Inv(s) && k in s.phis && k !in s.pending
    requires v != PhiRef(k) && TrivialOps(k, s.phis[k], v)
    requires s.phis[k] == [] ==> v == Const(Undefined)
    ensures Inv(RemovePhi(s, k, v))
    ensures k in s.ins && RemovePhi(s, k, v).ins[k] == v
  {
    var t := RemovePhi(s, k, v);
    TrivialIsBelow(s, k, v);
    assert PhiOk(s, k) && InOk(s, k);
    forall q | q in t.ins ensures InOk(t, q) {
      RemoveKeepsIn(s, k, v, q);
    }
    forall q | q in t.phis ensures PhiOk(t, q) {
      assert PhiOk(s, q);
    }
    forall b | 0 <= b < |t.preds| ensures EdgesOk(t, b) { assert EdgesOk(s, b); }
    forall b | 0 <= b < |t.blk| ensures ClosedBlock(t.ins, b, t.blk[b]) {
      assert ClosedBlock(s.ins, b, s.blk[b]);
      ClosedWiden(s.ins, t.ins, b, s.blk[b]);
    }
  }

  lemma ClosedWiden(ins: map<Key, Value>, ins1: map<Key, Value>, b: Block, blk: VBlock)
    requires ClosedBlock(ins, b, blk) && ins.Keys <= ins1.Keys
    ensures ClosedBlock(ins1, b, blk)
  {
    forall j | 0 <= j < |blk.code| ensures ClosedI(ins1, b, j, blk.code[j]) {
      assert ClosedI(ins, b, j, blk.code[j]);
    }
  }

  lemma RemoveKeepsIn(s: Ssa, k: Key, v: Value, q: Key)
    requires Inv(s) && k in s.phis && k !in s.pending && q in s.ins
    requires v != PhiRef(k) && TrivialOps(k, s.phis[k], v) && k.block in s.rank && Below(s, v, k.block)
    requires s.phis[k] == [] ==> v == Const(Undefined)
    ensures InOk(RemovePhi(s, k, v), q)
  {
    var t := RemovePhi(s, k, v);
    assert InOk(s, q) && PhiOk(s, k) && InOk(s, k) && EdgesOk(s, q.block);
    if q in t.phis {
      forall i | 0 <= i < |t.phis[q]| ensures FlowsIn(t, q, i, t.phis[q][i]) {
        assert FlowsIn(s, q, i, s.phis[q][i]);
        DefValAfterRemove(s, k, v, Key(s.preds[q.block][i], q.decl));
      }
    } else if q == k {
      forall i | 0 <= i < |s.preds[q.block]| ensures FlowsIn(t, q, i, v) {
        assert FlowsIn(s, k, i, s.phis[k][i]);
        DefValAfterRemove(s, k, v, Key(s.preds[q.block][i], q.decl));
      }
    } else {
      forall i | 0 <= i < |s.preds[q.block]| ensures FlowsIn(t, q, i, t.ins[q]) {
        assert FlowsIn(s, q, i, s.ins[q]);
        DefValAfterRemove(s, k, v, Key(s.preds[q.block][i], q.decl));
      }
    }
  }
}
