/** Where the value of a variable comes from that is set in the entry block only:
    exactly when every use of it sees that value, and exactly when one of its phis
    survives. All of it about finished SSA form over a reducible graph. */
module Sources {
  import opened Ir
  import opened Skeleton
  import opened SsaState
  import opened Loops

  // ----- along the edges of a finished graph -----

  /** All phis are filled, and edges are known from both ends. */
  ghost predicate Done(s: Ssa) {
    Inv(s) && s.pending == {}
  }

  lemma EdgeIndex(s: Ssa, u: Block, b: Block) returns (i: nat)
    requires Done(s) && Edge(s.blk, u, b)
    ensures b < |s.preds| && i < |s.preds[b]| && s.preds[b][i] == u
  {
    assert EdgesOk(s, u);
    i :| 0 <= i < |s.preds[b]| && s.preds[b][i] == u;
  }

  lemma PredEdge(s: Ssa, b: Block, i: nat)
    requires Done(s) && b < |s.preds| && i < |s.preds[b]|
    ensures Edge(s.blk, s.preds[b][i], b)
  {
    assert EdgesOk(s, b);
  }

  /** A value that is no phi comes over every edge. */
  lemma SameOverEdge(s: Ssa, k: Key, u: Block)
    requires Done(s) && k in s.ins && k !in s.phis && Edge(s.blk, u, k.block)
    ensures HasDef(s, Key(u, k.decl)) && DefVal(s, Key(u, k.decl)) == s.ins[k]
  {
    var i := EdgeIndex(s, u, k.block);
    assert InOk(s, k);
    assert FlowsIn(s, k, i, s.ins[k]);
  }

  /** The operands of a phi are the values at the ends of the edges. */
  lemma OperandOverEdge(s: Ssa, k: Key, i: nat)
    requires Done(s) && k in s.phis && i < |s.phis[k]|
    ensures k.block < |s.preds| && i < |s.preds[k.block]|
    ensures var u := s.preds[k.block][i];
            Edge(s.blk, u, k.block) && HasDef(s, Key(u, k.decl)) && DefVal(s, Key(u, k.decl)) == s.phis[k][i]
  {
    assert PhiOk(s, k) && InOk(s, k);
    assert FlowsIn(s, k, i, s.phis[k][i]);
    PredEdge(s, k.block, i);
  }

  lemma KeyOverEdge(s: Ssa, k: Key, u: Block)
    requires Done(s) && k in s.ins && Edge(s.blk, u, k.block)
    ensures HasDef(s, Key(u, k.decl))
  {
    var i := EdgeIndex(s, u, k.block);
    assert InOk(s, k);
    if k in s.phis {
      assert PhiOk(s, k);
      OperandOverEdge(s, k, i);
    } else {
      SameOverEdge(s, k, u);
    }
  }

  /** Without edges there is nothing to be had. */
  lemma NothingFlowsIn(s: Ssa, k: Key)
    requires Done(s) && Minimal(s, {}) && k in s.ins && NoEdgeInto(s.blk, k.block)
    ensures k !in s.phis && s.ins[k] == Const(Undefined)
  {
    assert InOk(s, k);
    if s.preds[k.block] != [] { PredEdge(s, k.block, 0); }
    if k in s.phis { EmptyIsTrivial(s, k); }
  }

  lemma EmptyIsTrivial(s: Ssa, k: Key)
    requires Done(s) && k in s.phis && k.block < |s.preds| && s.preds[k.block] == []
    ensures Trivial(k, s.phis[k])
  {
    assert PhiOk(s, k) && InOk(s, k);
    assert TrivialOps(k, s.phis[k], Const(Undefined));
  }

  // ----- walks in a graph -----

  ghost predicate NoEdgeInto(blk: seq<VBlock>, b: Block) {
    forall u: Block {:trigger Edge(blk, u, b)} :: !Edge(blk, u, b)
  }

  predicate StepAt(blk: seq<VBlock>, w: seq<Block>, i: nat) {
    i + 1 < |w| ==> Edge(blk, w[i], w[i + 1])
  }

  ghost predicate Walk(blk: seq<VBlock>, w: seq<Block>) {
    w != [] && forall i: nat :: StepAt(blk, w, i)
  }

  ghost predicate WalkTo(blk: seq<VBlock>, w: seq<Block>, u: Block, b: Block) {
    Walk(blk, w) && w[0] == u && w[|w| - 1] == b
  }

  ghost predicate Reaches(blk: seq<VBlock>, u: Block, b: Block) {
    exists w :: WalkTo(blk, w, u, b)
  }

  /** An operand is the value d has on entry to the block. */
  predicate UsedBy(i: Instr<Value>, d: Decl) {
    match i
    case Bin(_, l, r) => l == Entry(d) || r == Entry(d)
    case Un(_, v) => v == Entry(d)
    case Load(a) => a == Entry(d)
    case StoreTo(a, v) => a == Entry(d) || v == Entry(d)
    case LoadAll(a) => a == Entry(d)
    case StoreAll(a, v) => a == Entry(d) || v == Entry(d)
    case CopyAll(to, from) => to == Entry(d) || from == Entry(d)
    case Gep(a, x) => a == Entry(d) || x == Entry(d)
    case SlotOf(a, _) => a == Entry(d)
    case Call(f, args) => f == Entry(d) || exists j :: 0 <= j < |args| && args[j].v == Entry(d)
  }

  /** The block uses the value d has on entry: in its code, as the new value of a
      variable, or in its terminator. */
  ghost predicate Uses(blk: VBlock, d: Decl) {
    || (exists j :: 0 <= j < |blk.code| && UsedBy(blk.code[j], d))
    || (exists e :: e in blk.out && blk.out[e] == Entry(d))
    || blk.term == Ret(Entry(d)) || (blk.term.CondBr? && blk.term.c == Entry(d))
  }

  ghost predicate LeadsToUse(blk: seq<VBlock>, b: Block, d: Decl) {
    exists u: Block :: u < |blk| && Uses(blk[u], d) && Reaches(blk, b, u)
  }

  /** Control cannot reach r, but what stands behind it may be reached from r. */
  ghost predicate DeadRoot(blk: seq<VBlock>, r: Block) {
    0 < r < |blk| && NoEdgeInto(blk, r)
  }

  ghost predicate BehindDead(blk: seq<VBlock>, b: Block) {
    exists r: Block :: DeadRoot(blk, r) && Reaches(blk, r, b)
  }

  /** A walk to a use of d, from a block without incoming edges, on which no block
      gives d a value. */
  ghost predicate Unbound(blk: seq<VBlock>, d: Decl, w: seq<Block>) {
    && Walk(blk, w) && NoEdgeInto(blk, w[0])
    && (forall i :: 0 <= i < |w| - 1 ==> w[i] < |blk| && d !in blk[w[i]].out)
    && w[|w| - 1] < |blk| && Uses(blk[w[|w| - 1]], d)
  }

  lemma ReachesItself(blk: seq<VBlock>, b: Block)
    ensures Reaches(blk, b, b)
  {
    assert WalkTo(blk, [b], b, b);
  }

  lemma ReachesOn(blk: seq<VBlock>, u: Block, z: Block, b: Block)
    requires Reaches(blk, u, z) && Edge(blk, z, b)
    ensures Reaches(blk, u, b)
  {
    var w :| WalkTo(blk, w, u, z);
    var w1 := w + [b];
    forall i: nat ensures StepAt(blk, w1, i) { assert StepAt(blk, w, i); }
    assert WalkTo(blk, w1, u, b);
  }

  lemma ReachesFrom(blk: seq<VBlock>, u: Block, z: Block, b: Block)
    requires Edge(blk, u, z) && Reaches(blk, z, b)
    ensures Reaches(blk, u, b)
  {
    var w :| WalkTo(blk, w, z, b);
    var w1 := [u] + w;
    forall i: nat ensures StepAt(blk, w1, i) {
      if i > 0 { assert StepAt(blk, w, i - 1); }
    }
    assert WalkTo(blk, w1, u, b);
  }

  lemma WalkFront(blk: seq<VBlock>, w: seq<Block>)
    requires Walk(blk, w) && |w| > 1
    ensures Walk(blk, w[..|w| - 1]) && Edge(blk, w[|w| - 2], w[|w| - 1])
  {
    var v := w[..|w| - 1];
    forall i: nat ensures StepAt(blk, v, i) { assert StepAt(blk, w, i); }
    assert StepAt(blk, w, |w| - 2);
  }

  lemma UseIsAsked(s: Ssa, b: Block, d: Decl)
    requires Done(s) && b < |s.blk| && Uses(s.blk[b], d)
    ensures Key(b, d) in s.ins
  {
    var blk := s.blk[b];
    assert ClosedBlock(s.ins, b, blk);
    if j :| 0 <= j < |blk.code| && UsedBy(blk.code[j], d) {
      assert ClosedI(s.ins, b, j, blk.code[j]);
    } else if e :| e in blk.out && blk.out[e] == Entry(d) {
      assert ClosedV(s.ins, b, |blk.code|, blk.out[e]);
    }
  }

  // ----- a variable that is set in block 0 only -----

  ghost predicate Unset(s: Ssa, d: Decl) {
    && Done(s) && Minimal(s, {}) && 0 < |s.blk| && NoEdgeInto(s.blk, 0)
    && (forall b: Block :: 0 < b < |s.blk| ==> d !in s.blk[b].out)
  }

  function At(s: Ssa, b: Block, d: Decl): Value
    requires HasDef(s, Key(b, d))
  {
    DefVal(s, Key(b, d))
  }

  /** Where the value of d was asked for, it was asked for at the start of every
      walk to there. */
  lemma {:induction false} AskedBefore(s: Ssa, d: Decl, w: seq<Block>)
    requires Unset(s, d) && Walk(s.blk, w) && Key(w[|w| - 1], d) in s.ins
    ensures HasDef(s, Key(w[0], d)) && (w[0] != 0 ==> Key(w[0], d) in s.ins)
    decreases |w|
  {
    var b := w[|w| - 1];
    assert InOk(s, Key(b, d));
    if |w| > 1 {
      WalkFront(s.blk, w);
      var u := w[|w| - 2];
      KeyOverEdge(s, Key(b, d), u);
      if u == 0 {
        if |w| > 2 { WalkFront(s.blk, w[..|w| - 1]); }
      } else {
        AskedBefore(s, d, w[..|w| - 1]);
      }
    }
  }

  lemma AskedAt(s: Ssa, d: Decl, u: Block, b: Block)
    requires Unset(s, d) && Reaches(s.blk, u, b) && Key(b, d) in s.ins
    ensures HasDef(s, Key(u, d)) && (u != 0 ==> Key(u, d) in s.ins)
  {
    var w :| WalkTo(s.blk, w, u, b);
    AskedBefore(s, d, w);
  }

  lemma AskedForUse(s: Ssa, d: Decl, u: Block)
    requires Unset(s, d) && LeadsToUse(s.blk, u, d)
    ensures HasDef(s, Key(u, d)) && (u != 0 ==> Key(u, d) in s.ins)
  {
    var b: Block :| b < |s.blk| && Uses(s.blk[b], d) && Reaches(s.blk, u, b);
    UseIsAsked(s, b, d);
    AskedAt(s, d, u, b);
  }

  // ----- where block 0 is the only source -----

  /** The blocks of a, with all blocks before them, get the value of d from block
      0 only, where it is v. */
  ghost predicate SetAtEntry(s: Ssa, ord: Order, d: Decl, a: set<Block>, v: Value) {
    && Unset(s, d) && Injective(ord) && SingleEntry(s.blk, ord, |s.blk|) && !v.PhiRef?
    && (forall b: Block :: b in a ==> b in ord && HasDef(s, Key(b, d)) && FromEntry(s, ord, d, a, v, b))
  }

  ghost predicate FromEntry(s: Ssa, ord: Order, d: Decl, a: set<Block>, v: Value, b: Block)
    requires b in ord && HasDef(s, Key(b, d))
  {
    if b == 0 then At(s, b, d) == v
    else 0 in ord && ord[0] < ord[b] && FedBy(s.blk, ord, |s.blk|, b)
         && forall u: Block {:trigger Edge(s.blk, u, b)} :: Edge(s.blk, u, b) ==> u in a
  }

  /** Away from block 0, a value comes over an edge from an earlier block or is
      a phi of its block. */
  lemma ComesFrom(s: Ssa, ord: Order, d: Decl, a: set<Block>, v: Value, b: Block) returns (u: Block)
    requires SetAtEntry(s, ord, d, a, v) && b in a && b != 0
    ensures b in ord && u in a && u in ord && Edge(s.blk, u, b) && ord[u] < ord[b]
    ensures HasDef(s, Key(b, d)) && HasDef(s, Key(u, d)) && Key(b, d) in s.ins
    ensures Key(b, d) !in s.phis ==> At(s, u, d) == At(s, b, d)
    ensures Key(b, d) in s.phis ==> At(s, b, d) == PhiRef(Key(b, d))
  {
    var k := Key(b, d);
    assert FromEntry(s, ord, d, a, v, b);
    u :| u in ord && Edge(s.blk, u, b) && ord[u] < ord[b];
    assert InOk(s, k);
    if k !in s.phis { SameOverEdge(s, k, u); }
  }

  ghost predicate IsPhiOf(s: Ssa, ord: Order, d: Decl, a: set<Block>, q: Key) {
    q in s.phis && q.decl == d && q.block in a && q.block in ord
  }

  /** Before the first phi of d, its value is the one of block 0. */
  lemma {:induction false} EntryValue(s: Ssa, ord: Order, d: Decl, a: set<Block>, v: Value, b: Block)
    requires SetAtEntry(s, ord, d, a, v) && b in a && b in ord
    requires forall q: Key :: IsPhiOf(s, ord, d, a, q) ==> ord[q.block] > ord[b]
    ensures HasDef(s, Key(b, d)) && At(s, b, d) == v
    decreases ord[b]
  {
    if b == 0 {
      assert FromEntry(s, ord, d, a, v, b);
    } else {
      var u := ComesFrom(s, ord, d, a, v, b);
      assert !IsPhiOf(s, ord, d, a, Key(b, d));
      EntryValue(s, ord, d, a, v, u);
    }
  }

  /** Between the first block k.block of a loop with latch x and its end, the
      value is a phi of the loop. */
  lemma {:induction false} LoopValue(s: Ssa, ord: Order, a: set<Block>, v: Value, k: Key, x: Block, b: Block)
    returns (q: Key)
    requires SetAtEntry(s, ord, k.decl, a, v) && IsPhiOf(s, ord, k.decl, a, k) && k.block != 0
    requires x in ord && Edge(s.blk, x, k.block)
    requires b in a && b in ord && ord[k.block] <= ord[b] <= ord[x]
    ensures IsPhiOf(s, ord, k.decl, a, q) && ord[k.block] <= ord[q.block] <= ord[b]
    ensures HasDef(s, Key(b, k.decl)) && At(s, b, k.decl) == PhiRef(q)
    decreases ord[b]
  {
    assert FromEntry(s, ord, k.decl, a, v, k.block);
    var u := ComesFrom(s, ord, k.decl, a, v, b);
    if Key(b, k.decl) in s.phis {
      q := Key(b, k.decl);
    } else {
      assert b != k.block && !SameNumber(ord, b, k.block);
      assert Crossing(s.blk, x, k.block, u, b);
      q := LoopValue(s, ord, a, v, k, x, u);
    }
  }

  /** The operands of k that come from earlier blocks are all y. */
  ghost predicate FirstFrom(s: Ssa, ord: Order, k: Key, y: Value)
    requires Done(s) && k in s.phis
  {
    forall u: Block {:trigger Edge(s.blk, u, k.block)} ::
      (u in ord && k.block in ord && ord[u] < ord[k.block] && Edge(s.blk, u, k.block) && HasDef(s, Key(u, k.decl)))
      ==> DefVal(s, Key(u, k.decl)) == y
  }

  /** The earliest phi of d after block number lo. */
  lemma {:induction false} Earliest(s: Ssa, ord: Order, d: Decl, a: set<Block>, lo: int, q: Key) returns (k: Key)
    requires IsPhiOf(s, ord, d, a, q) && lo < ord[q.block]
    ensures IsPhiOf(s, ord, d, a, k) && lo < ord[k.block] <= ord[q.block]
    ensures forall r: Key :: IsPhiOf(s, ord, d, a, r) && lo < ord[r.block] ==> ord[k.block] <= ord[r.block]
    decreases ord[q.block]
  {
    if r: Key :| IsPhiOf(s, ord, d, a, r) && lo < ord[r.block] < ord[q.block] {
      k := Earliest(s, ord, d, a, lo, r);
    } else {
      k := q;
    }
  }

  /** A phi of d that gets one value from outside its loop and is not trivial
      has a phi inside that loop which gets one value from outside its own. */
  lemma NextPhi(s: Ssa, ord: Order, a: set<Block>, v: Value, k: Key, y: Value) returns (k1: Key)
    requires SetAtEntry(s, ord, k.decl, a, v) && IsPhiOf(s, ord, k.decl, a, k) && k.block != 0
    requires FirstFrom(s, ord, k, y) && y != PhiRef(k) && !Trivial(k, s.phis[k])
    ensures IsPhiOf(s, ord, k.decl, a, k1) && ord[k.block] < ord[k1.block] && FirstFrom(s, ord, k1, PhiRef(k))
  {
    var d := k.decl;
    assert !TrivialOps(k, s.phis[k], y);
    var i :| 0 <= i < |s.phis[k]| && s.phis[k][i] != y && s.phis[k][i] != PhiRef(k);
    OperandOverEdge(s, k, i);
    var x := s.preds[k.block][i];
    assert FromEntry(s, ord, d, a, v, k.block) && x in a;
    var q := LoopValue(s, ord, a, v, k, x, x);
    assert ord[q.block] > ord[k.block] by { assert !SameNumber(ord, q.block, k.block) || q.block == k.block; }
    k1 := Earliest(s, ord, d, a, ord[k.block], q);
    AllFromLoop(s, ord, a, v, k, x, k1);
  }

  lemma AllFromLoop(s: Ssa, ord: Order, a: set<Block>, v: Value, k: Key, x: Block, k1: Key)
    requires SetAtEntry(s, ord, k.decl, a, v) && IsPhiOf(s, ord, k.decl, a, k) && k.block != 0
    requires x in ord && Edge(s.blk, x, k.block)
    requires IsPhiOf(s, ord, k.decl, a, k1) && ord[k.block] < ord[k1.block] <= ord[x]
    requires forall r: Key :: IsPhiOf(s, ord, k.decl, a, r) && ord[k.block] < ord[r.block] ==>
             ord[k1.block] <= ord[r.block]
    ensures FirstFrom(s, ord, k1, PhiRef(k))
  {
    var d := k.decl;
    assert FromEntry(s, ord, d, a, v, k1.block) && FromEntry(s, ord, d, a, v, k.block);
    forall u: Block | u in ord && ord[u] < ord[k1.block] && Edge(s.blk, u, k1.block) && HasDef(s, Key(u, d))
      ensures DefVal(s, Key(u, d)) == PhiRef(k)
    {
      assert Crossing(s.blk, x, k.block, u, k1.block);
      var r := LoopValue(s, ord, a, v, k, x, u);
      assert SameNumber(ord, r.block, k.block);
    }
  }

  ghost function LaterPhis(s: Ssa, ord: Order, a: set<Block>, k: Key): set<Key>
    requires k.block in ord
  {
    set q | q in s.phis && IsPhiOf(s, ord, k.decl, a, q) && ord[k.block] < ord[q.block]
  }

  /** One phi that gets one value from outside its loop makes some phi trivial. */
  lemma {:induction false} SomeTrivial(s: Ssa, ord: Order, a: set<Block>, v: Value, k: Key, y: Value)
    requires SetAtEntry(s, ord, k.decl, a, v) && IsPhiOf(s, ord, k.decl, a, k) && k.block != 0
    requires FirstFrom(s, ord, k, y) && y != PhiRef(k)
    ensures exists q: Key :: q in s.phis && q.decl == k.decl && Trivial(q, s.phis[q])
    decreases |LaterPhis(s, ord, a, k)|
  {
    if !Trivial(k, s.phis[k]) {
      var k1 := NextPhi(s, ord, a, v, k, y);
      Fewer(LaterPhis(s, ord, a, k1), LaterPhis(s, ord, a, k), k1);
      SomeTrivial(s, ord, a, v, k1, PhiRef(k));
    }
  }

  lemma Fewer(a: set<Key>, b: set<Key>, x: Key)
    requires a <= b && x in b && x !in a
    ensures |a| < |b|
  {
    if a != {} {
      var y :| y in a;
      Fewer(a - {y}, b - {y}, x);
    }
  }

  lemma NoEntryPhi(s: Ssa, d: Decl, k: Key)
    requires Unset(s, d) && k in s.phis
    ensures k.block != 0
  {
    assert PhiOk(s, k);
    if k.block == 0 { NothingFlowsIn(s, k); }
  }

  /** No phi of d survives. */
  lemma NoPhi(s: Ssa, ord: Order, d: Decl, a: set<Block>, v: Value)
    requires SetAtEntry(s, ord, d, a, v)
    ensures forall k: Key :: !IsPhiOf(s, ord, d, a, k)
  {
    if q: Key :| IsPhiOf(s, ord, d, a, q) {
      var k := Earliest(s, ord, d, a, -1, q);
      NoEntryPhi(s, d, k);
      assert FromEntry(s, ord, d, a, v, k.block);
      forall u: Block | u in ord && ord[u] < ord[k.block] && Edge(s.blk, u, k.block) && HasDef(s, Key(u, d))
        ensures DefVal(s, Key(u, d)) == v
      {
        EntryValue(s, ord, d, a, v, u);
      }
      SomeTrivial(s, ord, a, v, k, v);
    }
  }

  /** Every value of d in these blocks is the one of block 0. */
  lemma OneValue(s: Ssa, ord: Order, d: Decl, a: set<Block>, v: Value, b: Block)
    requires SetAtEntry(s, ord, d, a, v) && b in a
    ensures HasDef(s, Key(b, d)) && At(s, b, d) == v
  {
    NoPhi(s, ord, d, a, v);
    EntryValue(s, ord, d, a, v, b);
  }

  // ----- where dead blocks are sources, too -----

  ghost function Before(blk: seq<VBlock>, b: Block): set<Block> {
    set u: Block | u < |blk| && Reaches(blk, u, b)
  }

  /** d has the value v at the end of block 0. */
  ghost predicate Starts(s: Ssa, d: Decl, v: Value) {
    Unset(s, d) && d in s.blk[0].out && At(s, 0, d) == v && !v.PhiRef? && v != Const(Undefined)
  }

  /** A block that no dead block leads to has no other source than block 0. */
  lemma OnlyEntryBefore(s: Ssa, ord: Order, d: Decl, v: Value, b: Block, fed: bool)
    requires Starts(s, d, v) && Reducible(s.blk, ord, fed)
    requires b < |s.blk| && Key(b, d) in s.ins && !BehindDead(s.blk, b)
    ensures SetAtEntry(s, ord, d, Before(s.blk, b), v) && b in Before(s.blk, b)
  {
    var a := Before(s.blk, b);
    ReachesItself(s.blk, b);
    forall u: Block | u in a ensures u in ord && HasDef(s, Key(u, d)) && FromEntry(s, ord, d, a, v, u) {
      AskedAt(s, d, u, b);
      if u != 0 {
        assert FedOk(s.blk, ord, |s.blk|, fed, u);
        assert !DeadRoot(s.blk, u);
        forall z: Block | Edge(s.blk, z, u) ensures z in a { ReachesFrom(s.blk, z, u, b); }
      }
    }
  }

  /** A value that is no phi is the same all along a walk that does not set d. */
  lemma {:induction false} SameAlong(s: Ssa, d: Decl, w: seq<Block>)
    requires Done(s) && Walk(s.blk, w) && Key(w[|w| - 1], d) in s.ins && !s.ins[Key(w[|w| - 1], d)].PhiRef?
    requires forall i :: 0 <= i < |w| - 1 ==> w[i] < |s.blk| && d !in s.blk[w[i]].out
    ensures Key(w[0], d) in s.ins && s.ins[Key(w[0], d)] == s.ins[Key(w[|w| - 1], d)]
    decreases |w|
  {
    if |w| > 1 {
      var k := Key(w[|w| - 1], d);
      WalkFront(s.blk, w);
      assert InOk(s, k);
      SameOverEdge(s, k, w[|w| - 2]);
      SameAlong(s, d, w[..|w| - 1]);
    }
  }

  /** A walk from a dead block never comes to block 0. */
  lemma DeadWalk(s: Ssa, d: Decl, w: seq<Block>, b: Block)
    requires Unset(s, d) && Walk(s.blk, w) && DeadRoot(s.blk, w[0]) && w[|w| - 1] == b && b < |s.blk| &&
             Uses(s.blk[b], d)
    ensures Unbound(s.blk, d, w)
  {
    forall i | 0 <= i < |w| - 1 ensures w[i] < |s.blk| && d !in s.blk[w[i]].out {
      assert StepAt(s.blk, w, i);
      if i > 0 { assert StepAt(s.blk, w, i - 1); }
    }
  }

  /** Every use of d is of value v exactly if no walk to a use is unbound. */
  lemma UsesSeeIff(s: Ssa, ord: Order, d: Decl, v: Value, fed: bool)
    requires Starts(s, d, v) && Reducible(s.blk, ord, fed)
    ensures (forall b: Block :: b < |s.blk| && Uses(s.blk[b], d) ==> Subst(s.ins, b, Entry(d)) == v)
            <==> !exists w :: Unbound(s.blk, d, w)
  {
    if w :| Unbound(s.blk, d, w) {
      var b := w[|w| - 1];
      UseIsAsked(s, b, d);
      if s.ins[Key(b, d)] == v {
        SameAlong(s, d, w);
        NothingFlowsIn(s, Key(w[0], d));
      }
      assert Subst(s.ins, b, Entry(d)) != v;
    } else {
      forall b: Block | b < |s.blk| && Uses(s.blk[b], d) ensures Subst(s.ins, b, Entry(d)) == v {
        UseIsAsked(s, b, d);
        if b == 0 { assert Unbound(s.blk, d, [0]); }
        if r: Block :| DeadRoot(s.blk, r) && Reaches(s.blk, r, b) {
          var w :| WalkTo(s.blk, w, r, b);
          DeadWalk(s, d, w, b);
        }
        OnlyEntryBefore(s, ord, d, v, b, fed);
        OneValue(s, ord, d, Before(s.blk, b), v, b);
      }
    }
  }

  /** Where block 0 does not lead, the value is undefined or a phi. */
  lemma {:induction false} DeadValue(s: Ssa, ord: Order, d: Decl, v: Value, b: Block, fed: bool)
    requires Starts(s, d, v) && Reducible(s.blk, ord, fed) && Key(b, d) in s.ins && b in ord && !Reaches(s.blk, 0, b)
    ensures s.ins[Key(b, d)] != v
    decreases ord[b]
  {
    var k := Key(b, d);
    assert InOk(s, k);
    ReachesItself(s.blk, 0);
    assert FedOk(s.blk, ord, |s.blk|, fed, b);
    if k in s.phis {
    } else if FedBy(s.blk, ord, |s.blk|, b) {
      var u: Block :| u in ord && Edge(s.blk, u, b) && ord[u] < ord[b];
      SameOverEdge(s, k, u);
      if Reaches(s.blk, 0, u) { ReachesOn(s.blk, 0, u, b); }
      DeadValue(s, ord, d, v, u, fed);
    } else {
      NothingFlowsIn(s, k);
    }
  }

  /** A phi of d stands in b, control can reach b, and d is used behind it. */
  ghost predicate LivePhi(s: Ssa, d: Decl, b: Block) {
    Key(b, d) in s.phis && Reaches(s.blk, 0, b) && LeadsToUse(s.blk, b, d)
  }

  /** A value that comes from block 0, and an undefined one, meet at b or before
      it, and d is used behind it. */
  ghost predicate Mixed(blk: seq<VBlock>, d: Decl, b: Block) {
    Reaches(blk, 0, b) && BehindDead(blk, b) && LeadsToUse(blk, b, d)
  }

  lemma LeadsFrom(blk: seq<VBlock>, u: Block, b: Block, d: Decl)
    requires Edge(blk, u, b) && LeadsToUse(blk, b, d)
    ensures LeadsToUse(blk, u, d)
  {
    var x: Block :| x < |blk| && Uses(blk[x], d) && Reaches(blk, b, x);
    ReachesFrom(blk, u, b, x);
  }

  /** Without such phis, the value of block 0 is found along every walk. */
  lemma {:induction false} LiveValue(s: Ssa, d: Decl, v: Value, w: seq<Block>)
    requires Starts(s, d, v) && Walk(s.blk, w) && w[0] == 0 && LeadsToUse(s.blk, w[|w| - 1], d)
    requires forall b: Block :: !LivePhi(s, d, b)
    ensures HasDef(s, Key(w[|w| - 1], d)) && At(s, w[|w| - 1], d) == v
    decreases |w|
  {
    var b := w[|w| - 1];
    if |w| > 1 {
      var w1 := w[..|w| - 1];
      var u := w[|w| - 2];
      WalkFront(s.blk, w);
      LeadsFrom(s.blk, u, b, d);
      LiveValue(s, d, v, w1);
      assert WalkTo(s.blk, w, 0, b) && !LivePhi(s, d, b);
      AskedForUse(s, d, b);
      SameOverEdge(s, Key(b, d), u);
    }
  }

  /** An edge from where block 0 does not lead to where it does. */
  lemma MeetingNeedsPhi(s: Ssa, ord: Order, d: Decl, v: Value, u: Block, b: Block, fed: bool)
    requires Starts(s, d, v) && Reducible(s.blk, ord, fed) && Edge(s.blk, u, b) && LeadsToUse(s.blk, b, d)
    requires !Reaches(s.blk, 0, u) && Reaches(s.blk, 0, b)
    ensures exists b: Block :: LivePhi(s, d, b)
  {
    if !exists b: Block :: LivePhi(s, d, b) {
      var w :| WalkTo(s.blk, w, 0, b);
      LiveValue(s, d, v, w);
      LeadsFrom(s.blk, u, b, d);
      ReachesItself(s.blk, 0);
      AskedForUse(s, d, u);
      AskedForUse(s, d, b);
      assert !LivePhi(s, d, b);
      SameOverEdge(s, Key(b, d), u);
      DeadValue(s, ord, d, v, u, fed);
    }
  }

  lemma NotTheFirst(blk: seq<VBlock>, r: Block)
    requires DeadRoot(blk, r)
    ensures !Reaches(blk, 0, r)
  {
    if w :| WalkTo(blk, w, 0, r) {
      if |w| > 1 { WalkFront(blk, w); }
    }
  }

  /** A walk from a dead block to where control can reach has such an edge. */
  lemma {:induction false} WalkMeets(s: Ssa, ord: Order, d: Decl, v: Value, w: seq<Block>, fed: bool)
    requires Starts(s, d, v) && Reducible(s.blk, ord, fed) && Walk(s.blk, w) && DeadRoot(s.blk, w[0])
    requires Reaches(s.blk, 0, w[|w| - 1]) && LeadsToUse(s.blk, w[|w| - 1], d)
    ensures exists b: Block :: LivePhi(s, d, b)
    decreases |w|
  {
    NotTheFirst(s.blk, w[0]);
    var u, b := w[|w| - 2], w[|w| - 1];
    WalkFront(s.blk, w);
    if Reaches(s.blk, 0, u) {
      LeadsFrom(s.blk, u, b, d);
      WalkMeets(s, ord, d, v, w[..|w| - 1], fed);
    } else {
      MeetingNeedsPhi(s, ord, d, v, u, b, fed);
    }
  }

  /** Any phi of d, used or not, has a dead block before it. */
  lemma PhiIsBehindDead(s: Ssa, ord: Order, d: Decl, v: Value, k: Key, fed: bool)
    requires Starts(s, d, v) && Reducible(s.blk, ord, fed) && k in s.phis && k.decl == d
    ensures BehindDead(s.blk, k.block)
  {
    assert PhiOk(s, k) && InOk(s, k);
    if !BehindDead(s.blk, k.block) {
      var a := Before(s.blk, k.block);
      OnlyEntryBefore(s, ord, d, v, k.block, fed);
      NoPhi(s, ord, d, a, v);
      assert IsPhiOf(s, ord, d, a, k);
    }
  }

  lemma PhiSurvivesIff(s: Ssa, ord: Order, d: Decl, v: Value, fed: bool)
    requires Starts(s, d, v) && Reducible(s.blk, ord, fed)
    ensures (exists b: Block :: LivePhi(s, d, b)) <==> (exists b: Block :: Mixed(s.blk, d, b))
  {
    if b: Block :| LivePhi(s, d, b) {
      PhiIsBehindDead(s, ord, d, v, Key(b, d), fed);
      assert Mixed(s.blk, d, b);
    }
    if b: Block :| Mixed(s.blk, d, b) {
      var r: Block :| DeadRoot(s.blk, r) && Reaches(s.blk, r, b);
      var w :| WalkTo(s.blk, w, r, b);
      WalkMeets(s, ord, d, v, w, fed);
    }
  }
}
