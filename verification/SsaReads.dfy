/** What reading variables and simplifying phis may change, as relations between
    the state before and after, and the facts that compose them. */
module SsaReads {
  import opened Ir
  import opened SsaState
  import opened SsaSteps
  import opened SsaCode

  /** What reading variable d may do: it never touches a phi that existed
      before, nor a value already recorded; new unfilled phis belong to blocks
      that may still get edges. */
  ghost predicate ReadPost(s: Ssa, s1: Ssa, d: Decl) {
    && Extends(s, s1)
    && (forall k :: k in s.phis ==> k in s1.phis && s1.phis[k] == s.phis[k])
    && (forall k :: k in s1.ins ==> k in s.ins || k.decl == d)
    && (forall k :: k in s1.phis ==> k in s.phis || MayGetPhi(s, k.block))
    && s.pending <= s1.pending
    && (forall k :: k in s1.pending ==> k in s.pending || k.block !in s.closed)
  }

  /** What holds of a block with one predecessor when that one has been read. */
  lemma OnlyPredRead(s: Ssa, s1: Ssa, k: Key)
    requires ReadPost(s, s1, k.decl) && !MayGetPhi(s, k.block)
    requires k.block < |s.blk| && k.block < |s.preds| && |s.preds[k.block]| == 1 && k !in s.phis &&
             k.decl !in s.blk[k.block].out
    ensures k.block < |s1.blk| && k.decl !in s1.blk[k.block].out && k !in s1.phis && s1.preds == s.preds &&
            s1.closed == s.closed
  {
  }

  /** Reads create phis only where several edges meet or may still be added. */
  predicate MayGetPhi(s: Ssa, b: Block) {
    b !in s.closed || (b < |s.preds| && |s.preds[b]| != 1)
  }

  /** The phis of t use no phi outside t. */
  ghost predicate OpsWithin(s: Ssa, t: set<Key>) {
    && t <= s.phis.Keys
    && (forall k, i :: k in t && 0 <= i < |s.phis[k]| && s.phis[k][i].PhiRef? ==> s.phis[k][i].key in t)
  }

  ghost predicate OldValue(v: Value, t: set<Key>) { v.PhiRef? ==> v.key in t }

  /** What simplifying phis outside t may do. */
  ghost predicate SimplifyPost(s: Ssa, s1: Ssa, t: set<Key>) {
    && s1.blk == s.blk && s1.preds == s.preds && s1.rank == s.rank && s1.closed == s.closed
    && s1.pending == s.pending
    && s1.ins.Keys == s.ins.Keys
    && s1.phis.Keys <= s.phis.Keys
    && t <= s1.phis.Keys
    && (forall k :: k in t && k in s.phis ==> s1.phis[k] == s.phis[k])
    && (forall k :: k in s.pending && k in s.phis ==> k in s1.phis && s1.phis[k] == s.phis[k])
    && (forall k :: k in s.ins && OldValue(s.ins[k], t) ==> s1.ins[k] == s.ins[k])
  }

  /** What filling in the operands of phi k, and simplifying it, may do. */
  ghost predicate FillPost(s: Ssa, s1: Ssa, k: Key, t: set<Key>) {
    && s1.blk == s.blk && s1.preds == s.preds && s1.rank == s.rank && s1.closed == s.closed
    && s.ins.Keys <= s1.ins.Keys
    && (forall q :: q in s1.ins ==> q in s.ins || q.decl == k.decl)
    && (forall q :: q in s1.phis ==> q in s.phis || MayGetPhi(s, q.block))
    && (forall q :: q in t && q in s.phis ==> q in s1.phis && s1.phis[q] == s.phis[q])
    && (forall q :: q in s.ins && OldValue(s.ins[q], t) ==> s1.ins[q] == s.ins[q])
    && k !in s1.pending && s.pending - {k} <= s1.pending
    && (forall q :: q in s1.pending ==> q in s.pending || q.block !in s.closed)
    && (forall q :: q in s.pending && q != k && q in s.phis ==> q in s1.phis && s1.phis[q] == s.phis[q])
  }

  /** Entered blocks with no value for d yet; reading d makes them fewer. */
  ghost function Missing(s: Ssa, d: Decl): set<Block> {
    set b | b in s.rank && !HasDef(s, Key(b, d))
  }

  lemma MissingShrinks(s: Ssa, s1: Ssa, d: Decl)
    requires Inv(s) && Extends(s, s1)
    ensures |Missing(s1, d)| <= |Missing(s, d)|
    ensures forall b :: b in Missing(s, d) && HasDef(s1, Key(b, d)) ==> |Missing(s1, d)| < |Missing(s, d)|
  {
    forall b | b in Missing(s1, d) ensures b in Missing(s, d) {
      if HasDef(s, Key(b, d)) { DefValExtends(s, s1, Key(b, d)); }
    }
    Fewer(Missing(s1, d), Missing(s, d));
    forall b | b in Missing(s, d) && HasDef(s1, Key(b, d))
      ensures |Missing(s1, d)| < |Missing(s, d)|
    {
      Fewer(Missing(s1, d), Missing(s, d) - {b});
    }
  }

  lemma Fewer(a: set<Block>, b: set<Block>)
    requires a <= b
    ensures |a| <= |b|
  {
    if a != {} {
      var x :| x in a;
      Fewer(a - {x}, b - {x});
    }
  }

  // ----- how the tables of the class relate to the state -----

  ghost predicate DefsOk(s: Ssa, defs: map<Key, Value>) {
    && (forall k :: k in defs <==> HasDef(s, k))
    && (forall k :: k in defs ==> defs[k] == DefVal(s, k))
  }

  ghost predicate ForwardOk(s: Ssa, forwarded: map<Key, Value>) {
    forall k :: k in forwarded ==> k in s.ins && forwarded[k] == s.ins[k]
  }

  ghost predicate IncompleteOk(s: Ssa, incomplete: set<Key>) {
    forall k: Key :: k.block !in s.closed ==> (k in incomplete <==> k in s.ins)
  }

  lemma DefsAfterRemove(s: Ssa, k: Key, v: Value, defs: map<Key, Value>)
    requires Inv(s) && DefsOk(s, defs)
    ensures DefsOk(RemovePhi(s, k, v), ReplIns(k, v, defs))
  {
    forall q | HasDef(s, q)
      ensures HasDef(RemovePhi(s, k, v), q)
      ensures DefVal(RemovePhi(s, k, v), q) == ReplV(k, v, DefVal(s, q))
    {
      DefValAfterRemove(s, k, v, q);
    }
  }

  lemma ForwardAfterRemove(s: Ssa, k: Key, v: Value, forwarded: map<Key, Value>)
    requires Inv(s) && ForwardOk(s, forwarded) && k in s.ins && s.ins[k] == PhiRef(k)
    ensures ForwardOk(RemovePhi(s, k, v), ReplIns(k, v, forwarded)[k := v])
  {
  }

  /** CurrentDef: the value each variable has at the end of each block, the phis
      waiting for their operands, the blocks whose predecessors are all known;
      and, for handles that outlive a phi, what replaced it. */
  datatype CurrentDef = CurrentDef(
    defs: map<Key, Value>,
    incomplete: set<Key>,
    sealed: set<Block>,
    forwarded: map<Key, Value>)

  ghost predicate Holds(s: Ssa, fn: Program, def: CurrentDef) {
    && Inv(s)
    && fn.phis == s.phis
    && IsCodeOf(s, fn.blocks)
    && DefsOk(s, def.defs)
    && ForwardOk(s, def.forwarded)
    && IncompleteOk(s, def.incomplete)
    && def.sealed <= s.closed
  }

  function ReplProgram(k: Key, v: Value, fn: Program): Program {
    Program(ReplBlocks(k, v, fn.blocks), ReplPhis(k, v, fn.phis))
  }

  function ReplDef(k: Key, v: Value, def: CurrentDef): CurrentDef {
    def.(defs := ReplIns(k, v, def.defs), forwarded := ReplIns(k, v, def.forwarded)[k := v])
  }

  lemma RemoveHolds(s: Ssa, fn: Program, def: CurrentDef, k: Key, v: Value)
    requires Holds(s, fn, def) && k in s.phis && k !in s.pending
    requires v != PhiRef(k) && TrivialOps(k, s.phis[k], v)
    requires s.phis[k] == [] ==> v == Const(Undefined)
    ensures Holds(RemovePhi(s, k, v), ReplProgram(k, v, fn), ReplDef(k, v, def))
  {
    assert PhiOk(s, k) && InOk(s, k);
    RemoveKeepsInv(s, k, v);
    DefsAfterRemove(s, k, v, def.defs);
    ForwardAfterRemove(s, k, v, def.forwarded);
    CodeAfterRemove(s, k, v, fn.blocks, ReplBlocks(k, v, fn.blocks));
  }

  // ----- facts about simplification -----

  /** The other phis that use k. */
  function Users(phis: map<Key, seq<Value>>, k: Key): set<Key> {
    set q | q in phis && q != k && PhiRef(k) in phis[q]
  }

  /** While phis outside t are simplified, the ones filling are old or empty. */
  ghost predicate FillingOk(s: Ssa, t: set<Key>) {
    forall q :: q in s.pending && q in s.phis ==> q in t || s.phis[q] == []
  }

  ghost predicate Screened(s: Ssa, t: set<Key>) {
    OpsWithin(s, t) && FillingOk(s, t) && s.pending <= s.phis.Keys
  }

  lemma RemoveSimplifies(s: Ssa, k: Key, v: Value, t: set<Key>)
    requires Inv(s) && k in s.phis && k !in s.pending && k !in t
    requires Screened(s, t)
    ensures SimplifyPost(s, RemovePhi(s, k, v), t) && Screened(RemovePhi(s, k, v), t)
    ensures |RemovePhi(s, k, v).phis| < |s.phis|
  {
    assert RemovePhi(s, k, v).phis.Keys == s.phis.Keys - {k};
    forall q | q in s.phis && q != k && (q in t || s.phis[q] == [])
      ensures ReplOps(k, v, s.phis[q]) == s.phis[q]
    {
      forall i | 0 <= i < |s.phis[q]| ensures ReplV(k, v, s.phis[q][i]) == s.phis[q][i] {}
    }
  }

  lemma RemoveMinimal(s: Ssa, k: Key, v: Value, x: set<Key>)
    requires Minimal(s, x + {k})
    ensures Minimal(RemovePhi(s, k, v), x + Users(s.phis, k))
  {
    var s1 := RemovePhi(s, k, v);
    forall q | q in s1.phis && q !in s1.pending && q !in x + Users(s.phis, k)
      ensures !Trivial(q, s1.phis[q])
    {
      assert s1.phis[q] == s.phis[q];
    }
  }

  lemma SimplifyRefl(s: Ssa, t: set<Key>)
    requires OpsWithin(s, t)
    ensures SimplifyPost(s, s, t)
  {
  }

  lemma SimplifyTrans(a: Ssa, b: Ssa, c: Ssa, t: set<Key>)
    requires SimplifyPost(a, b, t) && SimplifyPost(b, c, t) && Screened(a, t)
    ensures SimplifyPost(a, c, t) && Screened(b, t) && Screened(c, t)
  {
  }

  lemma FewerPhis(a: Ssa, b: Ssa)
    requires b.phis.Keys <= a.phis.Keys
    ensures |b.phis| <= |a.phis|
  {
    FewerKeys(b.phis.Keys, a.phis.Keys);
  }

  lemma FewerKeys(a: set<Key>, b: set<Key>)
    requires a <= b
    ensures |a| <= |b|
  {
    if a != {} {
      var x :| x in a;
      FewerKeys(a - {x}, b - {x});
    }
  }

  lemma StillToDo(s: Ssa, x: set<Key>, todo: set<Key>, c: Key)
    requires Minimal(s, x + todo) && c in todo
    ensures Minimal(s, x + (todo - {c}) + {c})
  {
    assert x + (todo - {c}) + {c} == x + todo;
  }

  lemma MinimalDone(s: Ssa, x: set<Key>, todo: set<Key>)
    requires Minimal(s, x + todo) && todo == {}
    ensures Minimal(s, x)
  {
    assert x + todo == x;
  }

  lemma MinimalWithout(s: Ssa, x: set<Key>, c: Key)
    requires Minimal(s, x + {c}) && c !in s.phis
    ensures Minimal(s, x)
  {
  }

  /** The users of a new phi are new and have all their operands. */
  lemma UsersScreened(s: Ssa, k: Key, t: set<Key>)
    requires Screened(s, t) && k !in t
    ensures Users(s.phis, k) !! t && Users(s.phis, k) !! s.pending
  {
  }

  // ----- facts about reads -----

  lemma CodeExtends(s: Ssa, s1: Ssa, blocks: seq<BasicBlock>)
    requires Inv(s) && Extends(s, s1) && IsCodeOf(s, blocks)
    ensures IsCodeOf(s1, blocks)
  {
    forall b | 0 <= b < |blocks| ensures blocks[b] == BlockOf(s1, b) {
      assert blocks[b] == BlockOf(s, b);
      assert ClosedBlock(s.ins, b, s.blk[b]);
      BlockStable(s.ins, s1.ins, b, s.blk[b]);
    }
  }

  /** Recording the value of k, which had none, keeps the tables right. */
  lemma RecordHolds(s: Ssa, s1: Ssa, fn: Program, fn1: Program, def: CurrentDef, k: Key, inc: set<Key>)
    requires Holds(s, fn, def) && Inv(s1) && Extends(s, s1)
    requires k !in s.ins && s1.ins.Keys == s.ins.Keys + {k} && k.block < |s.blk|
    requires k.decl !in s.blk[k.block].out
    requires fn1.blocks == fn.blocks && fn1.phis == s1.phis
    requires inc == if k.block in s.closed then def.incomplete else def.incomplete + {k}
    ensures Holds(s1, fn1, def.(defs := def.defs[k := s1.ins[k]], incomplete := inc))
  {
    CodeExtends(s, s1, fn.blocks);
    DefsRecord(s, s1, def.defs, k);
    BooksRecord(s, s1, def, k, inc);
  }

  lemma BooksRecord(s: Ssa, s1: Ssa, def: CurrentDef, k: Key, inc: set<Key>)
    requires Extends(s, s1) && s1.ins.Keys == s.ins.Keys + {k}
    requires ForwardOk(s, def.forwarded) && IncompleteOk(s, def.incomplete) && def.sealed <= s.closed
    requires inc == if k.block in s.closed then def.incomplete else def.incomplete + {k}
    ensures ForwardOk(s1, def.forwarded) && IncompleteOk(s1, inc) && def.sealed <= s1.closed
  {
  }

  lemma DefsRecord(s: Ssa, s1: Ssa, defs: map<Key, Value>, k: Key)
    requires Inv(s) && Extends(s, s1) && DefsOk(s, defs)
    requires k !in s.ins && s1.ins.Keys == s.ins.Keys + {k} && k.block < |s.blk|
    requires k.decl !in s.blk[k.block].out
    ensures DefsOk(s1, defs[k := s1.ins[k]])
  {
    var defs1 := defs[k := s1.ins[k]];
    forall q ensures q in defs1 <==> HasDef(s1, q) {
      assert q in defs <==> HasDef(s, q);
    }
    forall q | q in defs1 ensures defs1[q] == DefVal(s1, q) {
      if q != k { DefValExtends(s, s1, q); }
    }
  }

  /** Steps that only change operands or the set of filling phis. */
  lemma OperandsHold(s: Ssa, s1: Ssa, fn: Program, fn1: Program, def: CurrentDef)
    requires Holds(s, fn, def) && Inv(s1) && Extends(s, s1) && s1.ins.Keys == s.ins.Keys
    requires fn1.blocks == fn.blocks && fn1.phis == s1.phis
    ensures Holds(s1, fn1, def)
  {
    CodeExtends(s, s1, fn.blocks);
    forall q | HasDef(s, q) ensures HasDef(s1, q) && DefVal(s1, q) == DefVal(s, q) {
      DefValExtends(s, s1, q);
    }
  }

  /** d has a value in the block being sealed, if one is. */
  ghost predicate MayRead(s: Ssa, sealed: set<Block>, d: Decl) {
    forall b :: b in s.closed && b !in sealed ==> HasDef(s, Key(b, d))
  }

  lemma MayReadExtends(s: Ssa, s1: Ssa, sealed: set<Block>, d: Decl)
    requires Inv(s) && Extends(s, s1) && MayRead(s, sealed, d)
    ensures MayRead(s1, sealed, d)
  {
    forall b | b in s1.closed && b !in sealed ensures HasDef(s1, Key(b, d)) {
      DefValExtends(s, s1, Key(b, d));
    }
  }

  /** Reads seal nothing and leave the list being worked off alone. */
  ghost predicate SameBooks(s: Ssa, def: CurrentDef, def1: CurrentDef) {
    && def1.sealed == def.sealed
    && (forall k: Key :: k.block in s.closed ==> (k in def1.incomplete <==> k in def.incomplete))
  }

  /** The state while the operands of phi k are read, i of them done. */
  ghost predicate FillState(s: Ssa, s1: Ssa, k: Key, i: nat) {
    && Extends(s, s1)
    && k in s1.pending && k in s1.phis && |s1.phis[k]| == i
    && (forall q :: q in s.phis && q != k ==> q in s1.phis && s1.phis[q] == s.phis[q])
    && (forall q :: q in s1.ins ==> q in s.ins || q.decl == k.decl)
    && (forall q :: q in s1.phis ==> q in s.phis || MayGetPhi(s, q.block))
    && s.pending <= s1.pending
    && (forall q :: q in s1.pending ==> q in s.pending || q.block !in s.closed)
  }

  lemma FillStep(s: Ssa, a: Ssa, b: Ssa, k: Key, i: nat, v: Value)
    requires FillState(s, a, k, i) && ReadPost(a, b, k.decl)
    ensures FillState(s, b, k, i)
    ensures k in b.phis && FillState(s, AddOp(b, k, v), k, i + 1)
  {
  }

  lemma FillDone(s: Ssa, a: Ssa, k: Key, i: nat, t: set<Key>)
    requires Inv(s) && Inv(a) && FillState(s, a, k, i) && Inv(Finish(a, k))
    requires Screened(s, t + {k}) && k !in t && t <= s.phis.Keys
    requires OpsWithin(s, t)
    ensures Screened(Finish(a, k), t)
  {
    forall q | q in a.pending && q != k ensures q in t || a.phis[q] == [] {
      if q !in s.pending { assert PhiOk(a, q); }
    }
  }

  lemma FillEnd(s: Ssa, a: Ssa, c: Ssa, k: Key, i: nat, t: set<Key>)
    requires Inv(s) && FillState(s, a, k, i) && SimplifyPost(Finish(a, k), c, t) && k !in t
    requires t <= s.phis.Keys && s.pending <= s.phis.Keys && a.pending <= a.phis.Keys
    ensures FillPost(s, c, k, t)
  {
  }

  lemma PhisHaveIns(s: Ssa)
    requires Inv(s)
    ensures s.phis.Keys <= s.ins.Keys
  {
    forall k | k in s.phis ensures k in s.ins {
      assert PhiOk(s, k);
    }
  }

  lemma FreshPhiScreened(s: Ssa, s1: Ssa, k: Key)
    requires Inv(s) && Inv(s1) && s1 == NewPhi(s, k) && k !in s.ins
    ensures OpsWithin(s1, s.phis.Keys) && Screened(s1, s.phis.Keys + {k}) && k !in s.phis
  {
    PhisHaveIns(s);
    forall q, i | q in s.phis && 0 <= i < |s1.phis[q]| && s1.phis[q][i].PhiRef?
      ensures s1.phis[q][i].key in s.phis
    {
      OpsLive(s, q, i);
    }
  }

  lemma NewPhiIsRead(s: Ssa, k: Key)
    requires Inv(s) && k !in s.ins && k.block in s.rank && k.block !in s.closed
    ensures ReadPost(s, NewPhi(s, k), k.decl)
  {
    PhisHaveIns(s);
    NewPhiKeepsInv(s, k);
  }

  /** Filling a phi nobody else had seen looks like a read from outside. */
  lemma FilledIsRead(s: Ssa, s1: Ssa, s2: Ssa, k: Key)
    requires Inv(s) && Inv(s2) && s1 == NewPhi(s, k) && k !in s.ins && FillPost(s1, s2, k, s.phis.Keys)
    requires MayGetPhi(s, k.block)
    ensures ReadPost(s, s2, k.decl)
  {
    PhisHaveIns(s);
    FilledExtends(s, s1, s2, k);
    FilledKeepsPhis(s, s1, s2, k);
  }

  lemma FilledExtends(s: Ssa, s1: Ssa, s2: Ssa, k: Key)
    requires Inv(s) && s1 == NewPhi(s, k) && k !in s.ins && FillPost(s1, s2, k, s.phis.Keys)
    ensures Extends(s, s2)
  {
    OldValues(s);
    assert forall q :: q in s.ins ==> s1.ins[q] == s.ins[q];
  }

  lemma FilledKeepsPhis(s: Ssa, s1: Ssa, s2: Ssa, k: Key)
    requires s1 == NewPhi(s, k) && k !in s.phis && FillPost(s1, s2, k, s.phis.Keys)
    ensures forall q :: q in s.phis ==> q in s2.phis && s2.phis[q] == s.phis[q]
  {
    assert forall q :: q in s.phis ==> q in s1.phis && s1.phis[q] == s.phis[q];
  }

  lemma OldValues(s: Ssa)
    requires Inv(s)
    ensures forall q :: q in s.ins ==> OldValue(s.ins[q], s.phis.Keys)
  {
    forall q | q in s.ins ensures OldValue(s.ins[q], s.phis.Keys) {
      assert InOk(s, q);
    }
  }

  // ----- facts about sealing -----

  /** Only phis of blocks that may still get edges lack operands. */
  ghost predicate NothingOpen(s: Ssa) {
    forall k: Key :: k in s.pending ==> k.block !in s.closed
  }

  /** What sealing block b changes. */
  ghost predicate SealPost(s: Ssa, s1: Ssa, b: Block) {
    && s1.blk == s.blk && s1.preds == s.preds && s1.rank == s.rank
    && s1.closed == s.closed + {b}
    && s.ins.Keys <= s1.ins.Keys
  }

  lemma CloseHolds(s: Ssa, fn: Program, def: CurrentDef, b: Block)
    requires Holds(s, fn, def) && b in s.rank && b !in s.closed
    ensures Holds(Close(s, b), fn, def)
    ensures forall x :: Minimal(s, x) ==> Minimal(Close(s, b), x)
    ensures NothingOpen(s) ==> SealState(Close(s, b), Close(s, b), b, set k | k in def.incomplete && k.block == b)
  {
    CloseKeepsInv(s, b);
    forall x | 0 <= x < |fn.blocks| ensures fn.blocks[x] == BlockOf(Close(s, b), x) {
      assert fn.blocks[x] == BlockOf(s, x);
    }
    forall k | k in s.pending && k.block == b ensures k in def.incomplete {
      assert PhiOk(s, k);
    }
  }

  lemma SealedHolds(s: Ssa, fn: Program, def: CurrentDef, b: Block)
    requires Holds(s, fn, def) && s.closed == def.sealed + {b}
    ensures Holds(s, fn, def.(incomplete := (set k | k in def.incomplete && k.block != b), sealed := def.sealed + {b}))
  {
  }

  /** While block b is sealed: its phis in todo are still empty. */
  ghost predicate SealState(s: Ssa, s1: Ssa, b: Block, todo: set<Key>) {
    && s1.blk == s.blk && s1.preds == s.preds && s1.rank == s.rank && s1.closed == s.closed
    && s.ins.Keys <= s1.ins.Keys
    && (forall k :: k in todo ==> k.block == b && k in s1.pending && k in s1.phis && s1.phis[k] == [])
    && (forall k :: k in s1.pending ==> k in todo || k.block !in s1.closed)
  }

  lemma SealReady(s: Ssa, s1: Ssa, b: Block, todo: set<Key>, k: Key, sealed: set<Block>)
    requires Inv(s1) && SealState(s, s1, b, todo + {k}) && s1.closed == sealed + {b}
    ensures HasDef(s1, k) && MayRead(s1, sealed, k.decl) && Screened(s1, {} + {k})
    ensures k.block in s1.closed && k.block in s1.rank
  {
    assert PhiOk(s1, k) && InOk(s1, k);
    forall q | q in s1.pending ensures s1.phis[q] == [] {
      assert PhiOk(s1, q);
    }
  }

  lemma SealStep(s: Ssa, a: Ssa, c: Ssa, b: Block, todo: set<Key>, k: Key)
    requires Inv(a) && Inv(c) && SealState(s, a, b, todo + {k}) && k !in todo
    requires FillPost(a, c, k, {})
    ensures SealState(s, c, b, todo)
  {
  }
}
