/** The elementary changes the SSA builder makes to its state, each shown to
    keep the invariant, and what a read or a phi simplification may change. */
module SsaSteps {
  import opened Ir
  import opened Skeleton
  import opened SsaState

  /** s1 is s with more variables asked for. */
  ghost predicate Extends(s: Ssa, s1: Ssa) {
    && s1.blk == s.blk && s1.preds == s.preds && s1.rank == s.rank && s1.closed == s.closed
    && (forall k :: k in s.ins ==> k in s1.ins && s1.ins[k] == s.ins[k])
  }

  lemma DefValExtends(s: Ssa, s1: Ssa, q: Key)
    requires Inv(s) && Extends(s, s1) && HasDef(s, q)
    ensures HasDef(s1, q) && DefVal(s1, q) == DefVal(s, q)
  {
    assert ClosedBlock(s.ins, q.block, s.blk[q.block]);
  }

  predicate SameDef(s: Ssa, s1: Ssa, q: Key) {
    HasDef(s, q) && HasDef(s1, q) && DefVal(s1, q) == DefVal(s, q)
  }

  /** A variable's value on entry to k.block stays right when the edges that
      matter and the values at their other ends stay. */
  lemma InTransfer(s: Ssa, s1: Ssa, k: Key)
    requires k in s.ins && k in s1.ins && s1.ins[k] == s.ins[k] && InOk(s, k)
    requires k.block in s1.rank && k.block < |s1.preds|
    requires k in s1.phis <==> k in s.phis
    requires k in s.phis ==> s1.phis[k] == s.phis[k] && s.preds[k.block] <= s1.preds[k.block]
    requires k !in s.phis ==> s.preds[k.block] == s1.preds[k.block] && k.block in s1.closed
    requires k !in s.phis ==> Below(s1, s.ins[k], k.block)
    requires forall i :: 0 <= i < |s.preds[k.block]| ==>
               var q := Key(s.preds[k.block][i], k.decl); HasDef(s, q) ==> SameDef(s, s1, q)
    ensures InOk(s1, k)
  {
    if k in s.phis {
      forall i | 0 <= i < |s.phis[k]| ensures FlowsIn(s1, k, i, s.phis[k][i]) {
        assert FlowsIn(s, k, i, s.phis[k][i]);
      }
    } else {
      forall i | 0 <= i < |s.preds[k.block]| ensures FlowsIn(s1, k, i, s.ins[k]) {
        assert FlowsIn(s, k, i, s.ins[k]);
      }
    }
  }

  /** What holds of the untouched parts of a state that only asks for more. */
  lemma InvParts(s: Ssa, s1: Ssa)
    requires Inv(s) && Extends(s, s1)
    ensures Shape(s1)
    ensures forall b :: 0 <= b < |s1.blk| ==> ClosedBlock(s1.ins, b, s1.blk[b])
    ensures forall b :: 0 <= b < |s1.blk| && b !in s1.rank ==> s1.blk[b] == FRESH
  {
    forall b | 0 <= b < |s1.preds| ensures EdgesOk(s1, b) { assert EdgesOk(s, b); }
    forall b | 0 <= b < |s1.blk| ensures ClosedBlock(s1.ins, b, s1.blk[b]) {
      ClosedWiden(s.ins, s1.ins, b, s.blk[b]);
    }
  }

  lemma InExtends(s: Ssa, s1: Ssa, k: Key)
    requires Inv(s) && Extends(s, s1) && k in s.ins
    requires k in s1.phis <==> k in s.phis
    requires k in s.phis ==> s1.phis[k] == s.phis[k]
    requires s.phis.Keys <= s1.phis.Keys
    ensures InOk(s1, k)
  {
    assert InOk(s, k) && EdgesOk(s, k.block);
    forall i | 0 <= i < |s.preds[k.block]| && HasDef(s, Key(s.preds[k.block][i], k.decl))
      ensures SameDef(s, s1, Key(s.preds[k.block][i], k.decl))
    {
      DefValExtends(s, s1, Key(s.preds[k.block][i], k.decl));
    }
    InTransfer(s, s1, k);
  }

  // ----- one step at a time -----

  /** addEmptyPhi, recorded as the definition. */
  function NewPhi(s: Ssa, k: Key): Ssa {
    s.(ins := s.ins[k := PhiRef(k)], phis := s.phis[k := []], pending := s.pending + {k})
  }

  lemma NewPhiKeepsInv(s: Ssa, k: Key)
    requires Inv(s) && k !in s.ins && k.block in s.rank
    ensures Inv(NewPhi(s, k)) && Extends(s, NewPhi(s, k))
    ensures forall x :: Minimal(s, x) ==> Minimal(NewPhi(s, k), x)
  {
    var s1 := NewPhi(s, k);
    InvParts(s, s1);
    forall q | q in s1.ins ensures InOk(s1, q) {
      if q != k { InExtends(s, s1, q); } else { assert EdgesOk(s, k.block); }
    }
    forall q | q in s1.phis ensures PhiOk(s1, q) {
      if q != k { assert PhiOk(s, q); }
    }
  }

  /** The value read through a single predecessor, recorded. */
  function Cache(s: Ssa, k: Key, v: Value): Ssa {
    s.(ins := s.ins[k := v])
  }

  lemma CacheKeepsInv(s: Ssa, k: Key, v: Value)
    requires Inv(s) && k !in s.ins && k.block in s.closed && k !in s.phis
    requires |s.preds[k.block]| == 1
    requires HasDef(s, Key(s.preds[k.block][0], k.decl))
    requires v == DefVal(s, Key(s.preds[k.block][0], k.decl))
    ensures Inv(Cache(s, k, v)) && Extends(s, Cache(s, k, v))
  {
    var s1 := Cache(s, k, v);
    var q := Key(s.preds[k.block][0], k.decl);
    InvParts(s, s1);
    assert EdgesOk(s, k.block);
    DefValLive(s, q);
    DefValExtends(s, s1, q);
    forall j | j in s1.ins ensures InOk(s1, j) {
      if j != k { InExtends(s, s1, j); } else { assert FlowsIn(s1, k, 0, v); }
    }
    forall j | j in s1.phis ensures PhiOk(s1, j) { assert PhiOk(s, j); }
  }

  /** addIncoming. */
  function AddOp(s: Ssa, k: Key, v: Value): Ssa
    requires k in s.phis
  {
    s.(phis := s.phis[k := s.phis[k] + [v]])
  }

  lemma AddOpKeepsInv(s: Ssa, k: Key, v: Value)
    requires Inv(s) && k in s.pending && k.block in s.closed
    requires k.block < |s.preds| && k in s.phis && |s.phis[k]| < |s.preds[k.block]|
    requires FlowsIn(s, k, |s.phis[k]|, v)
    ensures Inv(AddOp(s, k, v)) && Extends(s, AddOp(s, k, v))
    ensures forall x :: Minimal(s, x) ==> Minimal(AddOp(s, k, v), x)
  {
    var s1 := AddOp(s, k, v);
    InvParts(s, s1);
    forall q | q in s1.ins ensures InOk(s1, q) {
      if q != k {
        InExtends(s, s1, q);
      } else {
        assert InOk(s, k);
        forall i | 0 <= i < |s1.phis[k]| ensures FlowsIn(s1, k, i, s1.phis[k][i]) {
          assert FlowsIn(s, k, i, s1.phis[k][i]);
          DefValExtends(s, s1, Key(s.preds[k.block][i], k.decl));
        }
      }
    }
    forall q | q in s1.phis ensures PhiOk(s1, q) { assert PhiOk(s, q); }
  }

  /** The phi has all its operands. */
  function Finish(s: Ssa, k: Key): Ssa { s.(pending := s.pending - {k}) }

  lemma FinishKeepsInv(s: Ssa, k: Key)
    requires Inv(s) && k in s.phis && k.block in s.closed && k.block < |s.preds|
    requires |s.phis[k]| == |s.preds[k.block]|
    ensures Inv(Finish(s, k)) && Extends(s, Finish(s, k))
    ensures forall x :: Minimal(s, x) ==> Minimal(Finish(s, k), x + {k})
  {
    var s1 := Finish(s, k);
    InvParts(s, s1);
    forall q | q in s1.ins ensures InOk(s1, q) { InExtends(s, s1, q); }
    forall q | q in s1.phis ensures PhiOk(s1, q) { assert PhiOk(s, q); }
  }

  /** No more edges will be added into b. */
  function Close(s: Ssa, b: Block): Ssa { s.(closed := s.closed + {b}) }

  lemma CloseKeepsInv(s: Ssa, b: Block)
    requires Inv(s) && b in s.rank && b !in s.closed
    ensures Inv(Close(s, b))
    ensures forall x :: Minimal(s, x) ==> Minimal(Close(s, b), x)
    ensures forall k :: HasDef(s, k) ==> HasDef(Close(s, b), k) && DefVal(Close(s, b), k) == DefVal(s, k)
    ensures forall k :: k in s.ins && k.block == b ==> k in s.phis && k in s.pending && s.phis[k] == []
  {
    var s1 := Close(s, b);
    forall k | k in s1.ins ensures InOk(s1, k) {
      assert InOk(s, k);
      InTransfer(s, s1, k);
    }
    forall k | k in s1.phis ensures PhiOk(s1, k) { assert PhiOk(s, k); }
    forall x | 0 <= x < |s1.preds| ensures EdgesOk(s1, x) { assert EdgesOk(s, x); }
    forall k | k in s.ins && k.block == b
      ensures k in s.phis && k in s.pending && s.phis[k] == []
    {
      assert InOk(s, k);
      assert PhiOk(s, k);
    }
  }

  // ----- steps of the emitter that change the graph -----

  /** Replaces the code of b, which has no terminator yet. */
  function SetCode(s: Ssa, b: Block, blk: VBlock): Ssa
    requires b < |s.blk|
  {
    s.(blk := s.blk[b := blk])
  }

  lemma SetCodeKeepsInv(s: Ssa, b: Block, blk: VBlock)
    requires Inv(s) && b in s.rank && b < |s.blk| && s.blk[b].term.Open? && blk.term.Open?
    requires ClosedBlock(s.ins, b, blk)
    ensures Inv(SetCode(s, b, blk))
    ensures forall x :: Minimal(s, x) ==> Minimal(SetCode(s, b, blk), x)
  {
    var s1 := SetCode(s, b, blk);
    forall x | 0 <= x < |s1.preds| ensures EdgesOk(s1, x) { assert EdgesOk(s, x); }
    forall k | k in s1.ins ensures InOk(s1, k) {
      assert InOk(s, k) && EdgesOk(s, k.block);
      InTransfer(s, s1, k);
    }
    forall k | k in s1.phis ensures PhiOk(s1, k) { assert PhiOk(s, k); }
  }

  function AddPred(preds: seq<seq<Block>>, b: Block, to: Block): seq<seq<Block>> {
    if to < |preds| then preds[to := preds[to] + [b]] else preds
  }

  /** The edges a terminator of block b adds. */
  function AddEdges(preds: seq<seq<Block>>, b: Block, t: Term<Value>): seq<seq<Block>> {
    match t
    case Br(x) => AddPred(preds, b, x)
    case CondBr(_, yes, no) => AddPred(AddPred(preds, b, yes), b, no)
    case _ => preds
  }

  /** Ends block b with terminator t. */
  function SetTerm(s: Ssa, b: Block, t: Term<Value>): Ssa
    requires b < |s.blk|
  {
    s.(blk := s.blk[b := s.blk[b].(term := t)], preds := AddEdges(s.preds, b, t))
  }

  /** A block may still be branched to: it is open to edges, and already entered
      only if it has an edge from an earlier block. */
  ghost predicate CanTarget(s: Ssa, x: Block) {
    x < |s.preds| && x !in s.closed && (x in s.rank ==> s.preds[x] != [])
  }

  ghost predicate TargetsOk(s: Ssa, t: Term<Value>) {
    match t
    case Br(x) => CanTarget(s, x)
    case CondBr(_, yes, no) => yes != no && CanTarget(s, yes) && CanTarget(s, no)
    case _ => true
  }

  lemma SetTermKeepsInv(s: Ssa, b: Block, t: Term<Value>)
    requires Inv(s) && b in s.rank && b < |s.blk| && s.blk[b].term.Open?
    requires ClosedT(s.ins, b, |s.blk[b].code|, t) && TargetsOk(s, t)
    ensures Inv(SetTerm(s, b, t))
    ensures forall x :: Minimal(s, x) ==> Minimal(SetTerm(s, b, t), x)
  {
    var s1 := SetTerm(s, b, t);
    SetTermShape(s, b, t);
    forall k | k in s1.ins ensures InOk(s1, k) {
      assert InOk(s, k) && EdgesOk(s, k.block);
      InTransfer(s, s1, k);
    }
    forall k | k in s1.phis ensures PhiOk(s1, k) { assert PhiOk(s, k); }
    assert ClosedBlock(s.ins, b, s.blk[b]);
    assert ClosedBlock(s1.ins, b, s1.blk[b]);
  }

  lemma SetTermShape(s: Ssa, b: Block, t: Term<Value>)
    requires Inv(s) && b in s.rank && b < |s.blk| && s.blk[b].term.Open?
    requires TargetsOk(s, t)
    ensures Shape(SetTerm(s, b, t))
    ensures forall x :: 0 <= x < |s.preds| && x in s.closed ==> SetTerm(s, b, t).preds[x] == s.preds[x]
  {
    var s1 := SetTerm(s, b, t);
    forall x | 0 <= x < |s1.preds| ensures EdgesOk(s1, x) {
      assert EdgesOk(s, x);
      forall to: Block | Leads(s1.blk[x].term, to) ensures to < |s1.preds| && x in s1.preds[to] {
        if x != b {
          assert Leads(s.blk[x].term, to);
          assert s.preds[to] <= s1.preds[to];
        } else {
          assert s1.preds[to][|s.preds[to]|] == b;
        }
      }
    }
  }

  /** BasicBlock::Create, n times. */
  function AddBlocks(s: Ssa, n: nat): Ssa {
    s.(blk := s.blk + seq(n, _ => FRESH), preds := s.preds + seq(n, _ => []))
  }

  lemma AddBlocksKeepsInv(s: Ssa, n: nat)
    requires Inv(s)
    ensures Inv(AddBlocks(s, n))
    ensures forall x :: Minimal(s, x) ==> Minimal(AddBlocks(s, n), x)
  {
    var s1 := AddBlocks(s, n);
    forall x | 0 <= x < |s1.preds| ensures EdgesOk(s1, x) {
      if x < |s.preds| { assert EdgesOk(s, x); }
    }
    forall k | k in s1.ins ensures InOk(s1, k) {
      assert InOk(s, k) && EdgesOk(s, k.block);
      InTransfer(s, s1, k);
    }
    forall k | k in s1.phis ensures PhiOk(s1, k) { assert PhiOk(s, k); }
  }

  /** setCurr on a block for the first time. */
  function EnterBlock(s: Ssa, b: Block): Ssa { s.(rank := s.rank[b := |s.rank|]) }

  lemma EnterKeepsInv(s: Ssa, b: Block)
    requires Inv(s) && b < |s.blk| && b !in s.rank
    ensures Inv(EnterBlock(s, b))
    ensures forall x :: Minimal(s, x) ==> Minimal(EnterBlock(s, b), x)
  {
    var s1 := EnterBlock(s, b);
    EnterShape(s, b);
    forall k | k in s1.ins ensures InOk(s1, k) {
      assert InOk(s, k) && EdgesOk(s, k.block);
      InTransfer(s, s1, k);
    }
    forall k | k in s1.phis ensures PhiOk(s1, k) { assert PhiOk(s, k); }
  }

  lemma EnterShape(s: Ssa, b: Block)
    requires Inv(s) && b < |s.blk| && b !in s.rank
    ensures Shape(EnterBlock(s, b))
  {
    var s1 := EnterBlock(s, b);
    assert s1.rank.Keys == s.rank.Keys + {b};
    assert |s1.rank| == |s.rank| + 1;
    forall x | 0 <= x < |s1.preds| ensures EdgesOk(s1, x) {
      assert EdgesOk(s, x);
      if x == b && s.preds[x] != [] { assert s.preds[x][0] in s.rank; }
    }
  }
}
