/** The code generator preserves meaning: the emitted SSA function and the
    reference semantics of the procedure have the same outcomes. */
module Correctness {
  import opened Ir
  import opened Source
  import opened Machines
  import opened Skeleton
  import opened Expressions
  import opened Shape
  import opened Statements
  import opened SsaState
  import opened SsaRun
  import opened SsaCode
  import opened Prescan
  import opened CodeGen

  // ----- the store a procedure starts with -----

  /** Parameters have their arguments; a scalar with a slot starts as zero, any
      other scalar local is undefined until assigned. */
  function InitStore(c: Ctx, ds: seq<Decl>, w: World, s: Store): Store {
    if ds == [] then s
    else
      var s1 := InitStore(c, ds[..|ds| - 1], w, s);
      InitDecl(c, ds[|ds| - 1], w, s1)
  }

  function InitDecl(c: Ctx, d: Decl, w: World, s: Store): Store {
    match KindOf(c.kinds, d)
    case ScalarParam => s[SlotLoc(d) := Eval(w, map[], Arg(d))]
    case ScalarLocal(zero) => if d in c.promoted then s[SlotLoc(d) := zero] else s
    case AggregateParam => StoreAllVal(s, Ptr(SlotLoc(d)), Eval(w, map[], Arg(d)))
    case AggregateLocal(zero) => StoreAllVal(s, Ptr(SlotLoc(d)), zero)
    case _ => s
  }

  /** Memory before the call holds nothing in the slots of the scalars. */
  ghost predicate SlotsFresh(ks: Kinds, m: Store) {
    forall l :: l in m && l.root.Frame? ==> !IsScalar(ks, l.root.decl)
  }

  /** Rel, while only the declarations in done have been set up. */
  ghost predicate Split(c: Ctx, w: World, s: Store, env: Env, out: map<Decl, Value>, m: Store, done: set<Decl>) {
    && SameMem(c, s, m)
    && (forall d :: IsSsa(c, d) ==> Eval(w, env, Current(out, d)) == Get(s, SlotLoc(d)))
    && (forall d :: IsAggregate(c.kinds, d) && d in done ==> Eval(w, env, Current(out, d)) == Ptr(SlotLoc(d)))
  }

  lemma SplitEnv(c: Ctx, w: World, s: Store, env: Env, env1: Env, out: map<Decl, Value>, m: Store, done: set<Decl>)
    requires Split(c, w, s, env, out, m, done)
    requires forall d :: Eval(w, env1, Current(out, d)) == Eval(w, env, Current(out, d))
    ensures Split(c, w, s, env1, out, m, done)
  {
  }

  /** Both stores get x in the slot of a scalar that has one. */
  lemma SplitStore(c: Ctx, w: World, s: Store, env: Env, out: map<Decl, Value>, m: Store, done: set<Decl>, d: Decl,
                   x: Val)
    requires Split(c, w, s, env, out, m, done) && d in c.promoted
    ensures Split(c, w, s[SlotLoc(d) := x], env, out, m[SlotLoc(d) := x], done)
  {
  }

  /** A scalar without a slot gets its first value. */
  lemma SplitVar(c: Ctx, w: World, s: Store, env: Env, out: map<Decl, Value>, m: Store, done: set<Decl>, d: Decl,
                 v: Value)
    requires Split(c, w, s, env, out, m, done) && IsSsa(c, d)
    ensures Split(c, w, s[SlotLoc(d) := Eval(w, env, v)], env, out[d := v], m, done + {d})
  {
  }

  /** A declaration that is no scalar is bound to an address. */
  lemma SplitAddr(c: Ctx, w: World, s: Store, env: Env, out: map<Decl, Value>, m: Store, done: set<Decl>, d: Decl,
                  v: Value)
    requires Split(c, w, s, env, out, m, done) && !IsScalar(c.kinds, d)
    requires IsAggregate(c.kinds, d) ==> v == SlotAddr(d)
    ensures Split(c, w, s, env, out[d := v], m, done + {d})
  {
  }

  ghost predicate AtEntry(c: Ctx, w: World, blk: VBlock, env0: Env, m0: Store, s: Store, done: set<Decl>) {
    && ScopedOut(0, blk)
    && Split(c, w, s, After(w, 0, blk, env0, m0).0, blk.out, After(w, 0, blk, env0, m0).1, done)
  }

  lemma AfterStore(w: World, blk: VBlock, d: Decl, v: Value, env0: Env, m0: Store)
    requires v.Arg? || v.Const?
    ensures After(w, 0, Push(0, blk, StoreTo(SlotAddr(d), v)).0, env0, m0).1 ==
            After(w, 0, blk, env0, m0).1[SlotLoc(d) := Eval(w, map[], v)]
  {
    var i := StoreTo(SlotAddr(d), v);
    var blk1 := Push(0, blk, i).0;
    assert blk1.code[..|blk.code|] == blk.code;
    var (env, m) := After(w, 0, blk, env0, m0);
    assert EvalInstr(w, env, i) == StoreTo(Ptr(SlotLoc(d)), Eval(w, map[], v));
  }

  /** Storing the initial value of a scalar into its slot. */
  lemma SlotSim(c: Ctx, w: World, d: Decl, v: Value, blk: VBlock, env0: Env, m0: Store, s: Store, done: set<Decl>)
    requires AtEntry(c, w, blk, env0, m0, s, done) && d in c.promoted && (v.Arg? || v.Const?) &&
             !IsAggregate(c.kinds, d)
    ensures AtEntry(c, w, Push(0, blk, StoreTo(SlotAddr(d), v)).0, env0, m0, s[SlotLoc(d) := Eval(w, map[], v)],
                    done + {d})
  {
    var blk1 := Push(0, blk, StoreTo(SlotAddr(d), v)).0;
    var (env, m) := After(w, 0, blk, env0, m0);
    var (env1, m1) := After(w, 0, blk1, env0, m0);
    AfterStore(w, blk, d, v, env0, m0);
    forall e ensures Eval(w, env1, Current(blk.out, e)) == Eval(w, env, Current(blk.out, e)) {
      Stable(w, 0, blk.code, blk1.code, env0, m0, Current(blk.out, e));
    }
    SplitEnv(c, w, s, env, env1, blk.out, m, done);
    SplitStore(c, w, s, env1, blk.out, m, done, d, Eval(w, map[], v));
  }

  lemma ValueSim(c: Ctx, w: World, d: Decl, blk: VBlock, env0: Env, m0: Store, s: Store, done: set<Decl>)
    requires AtEntry(c, w, blk, env0, m0, s, done) && IsSsa(c, d)
    ensures AtEntry(c, w, blk.(out := blk.out[d := Arg(d)]), env0, m0, s[SlotLoc(d) := Eval(w, map[], Arg(d))],
                    done + {d})
  {
    var (env, m) := After(w, 0, blk, env0, m0);
    SplitVar(c, w, s, env, blk.out, m, done, d, Arg(d));
  }

  /** An aggregate is copied into its slot, or zeroed there. */
  lemma AggregateSim(c: Ctx, w: World, d: Decl, v: Value, blk: VBlock, env0: Env, m0: Store, s: Store, done: set<Decl>)
    requires AtEntry(c, w, blk, env0, m0, s, done) && IsAggregate(c.kinds, d) && (v.Arg? || v.Const?)
    ensures AtEntry(c, w, DeclareSlot(d, v, blk), env0, m0, StoreAllVal(s, Ptr(SlotLoc(d)), Eval(w, map[], v)),
                    done + {d})
  {
    var i := StoreAll(SlotAddr(d), v);
    var blk1 := Push(0, blk, i).0;
    var (env, m) := After(w, 0, blk, env0, m0);
    var (env1, m1) := After(w, 0, blk1, env0, m0);
    assert blk1.code[..|blk.code|] == blk.code;
    assert EvalInstr(w, env, i) == StoreAll(Ptr(SlotLoc(d)), Eval(w, map[], v));
    forall e ensures Eval(w, env1, Current(blk.out, e)) == Eval(w, env, Current(blk.out, e)) {
      Stable(w, 0, blk.code, blk1.code, env0, m0, Current(blk.out, e));
    }
    SplitEnv(c, w, s, env, env1, blk.out, m, done);
    SplitRegion(c, w, s, env1, blk.out, m, done, d, Eval(w, map[], v));
    AddrBound(c, w, d, SlotAddr(d), blk1, env0, m0, StoreAllVal(s, Ptr(SlotLoc(d)), Eval(w, map[], v)), done);
  }

  lemma SplitRegion(c: Ctx, w: World, s: Store, env: Env, out: map<Decl, Value>, m: Store, done: set<Decl>, d: Decl,
                    x: Val)
    requires Split(c, w, s, env, out, m, done) && !IsScalar(c.kinds, d)
    ensures Split(c, w, StoreAllVal(s, Ptr(SlotLoc(d)), x), env, out, StoreAllVal(m, Ptr(SlotLoc(d)), x), done)
  {
    StoreAllSame(c, Ptr(SlotLoc(d)), x, s, m);
  }

  lemma AddrBound(c: Ctx, w: World, d: Decl, v: Value, blk: VBlock, env0: Env, m0: Store, s: Store, done: set<Decl>)
    requires AtEntry(c, w, blk, env0, m0, s, done) && !IsScalar(c.kinds, d) && (v.Arg? || v.Const?)
    requires IsAggregate(c.kinds, d) ==> v == SlotAddr(d)
    ensures AtEntry(c, w, blk.(out := blk.out[d := v]), env0, m0, s, done + {d})
  {
    var (env, m) := After(w, 0, blk, env0, m0);
    SplitAddr(c, w, s, env, blk.out, m, done, d, v);
  }

  lemma NothingDone(c: Ctx, w: World, d: Decl, blk: VBlock, env0: Env, m0: Store, s: Store, done: set<Decl>)
    requires AtEntry(c, w, blk, env0, m0, s, done) && !IsAggregate(c.kinds, d)
    ensures AtEntry(c, w, blk, env0, m0, s, done + {d})
  {
  }

  lemma DeclSim(c: Ctx, w: World, d: Decl, blk: VBlock, env0: Env, m0: Store, s: Store, done: set<Decl>)
    requires AtEntry(c, w, blk, env0, m0, s, done)
    ensures AtEntry(c, w, Declare(c, d, blk), env0, m0, InitDecl(c, d, w, s), done + {d})
  {
    match KindOf(c.kinds, d)
    case VarParam => AddrBound(c, w, d, Arg(d), blk, env0, m0, s, done);
    case AggregateParam => AggregateSim(c, w, d, Arg(d), blk, env0, m0, s, done);
    case AggregateLocal(zero) => AggregateSim(c, w, d, Const(zero), blk, env0, m0, s, done);
    case ScalarParam =>
      if d in c.promoted { SlotSim(c, w, d, Arg(d), blk, env0, m0, s, done); }
      else { ValueSim(c, w, d, blk, env0, m0, s, done); }
    case ScalarLocal(zero) =>
      if d in c.promoted { SlotSim(c, w, d, Const(zero), blk, env0, m0, s, done); }
      else { NothingDone(c, w, d, blk, env0, m0, s, done); }
    case Global => NothingDone(c, w, d, blk, env0, m0, s, done);
  }

  lemma {:induction false} DeclsSim(c: Ctx, w: World, ds: seq<Decl>, blk: VBlock, env0: Env, m0: Store, s: Store,
                                    done: set<Decl>)
    requires AtEntry(c, w, blk, env0, m0, s, done)
    ensures AtEntry(c, w, AddDecls(c, ds, blk), env0, m0, InitStore(c, ds, w, s), done + set d | d in ds)
    decreases |ds|
  {
    if ds == [] {
      assert done + (set d | d in ds) == done;
    } else {
      var n := |ds| - 1;
      DeclsSim(c, w, ds[..n], blk, env0, m0, s, done);
      DeclSim(c, w, ds[n], AddDecls(c, ds[..n], blk), env0, m0, InitStore(c, ds[..n], w, s),
              done + set d | d in ds[..n]);
      assert ds == ds[..n] + [ds[n]];
      assert done + (set d | d in ds) == done + (set d | d in ds[..n]) + {ds[n]};
    }
  }

  /** Every aggregate of the procedure is one of its parameters or locals. */
  ghost predicate Declared(p: Proc) {
    forall d :: IsAggregate(p.kinds, d) ==> d in p.params || d in p.locals
  }

  lemma NoEntries(w: World)
    ensures forall d :: Eval(w, map[], Entry(d)) == Undefined
  {
  }

  lemma EntryAt(c: Ctx, p: Proc, w: World, env0: Env, m0: Store)
    requires c.kinds == p.kinds && Declared(p) && SlotsFresh(p.kinds, m0)
    requires forall d :: Eval(w, env0, Entry(d)) == Undefined
    ensures var entry := AddDecls(c, p.locals, AddDecls(c, p.params, FRESH));
            entry.term.Open? && At(c, w, 0, entry, env0, m0, InitStore(c, p.locals, w, InitStore(c, p.params, w, m0)))
  {
    DeclsFrame(c, p.params, FRESH);
    DeclsFrame(c, p.locals, AddDecls(c, p.params, FRESH));
    DeclsSim(c, w, p.params, FRESH, env0, m0, m0, {});
    DeclsSim(c, w, p.locals, AddDecls(c, p.params, FRESH), env0, m0, InitStore(c, p.params, w, m0),
             {} + set d | d in p.params);
  }

  // ----- the two meanings of a procedure -----

  /** The reference outcome, with the given bound on loop iterations. */
  function SourceRun(c: Ctx, p: Proc, w: World, m0: Store, fuel: nat): Outcome {
    ToOutcome(ExecStmts(p.kinds, w, p.body, InitStore(c, p.locals, w, InitStore(c, p.params, w, m0)), fuel))
  }

  /** Where a call of the emitted function starts. */
  function SsaStart(m0: Store): SsaPoint { SsaPoint(None, 0, map[], m0) }

  ghost predicate SourceEnds(c: Ctx, p: Proc, w: World, m0: Store, o: Outcome) {
    exists fuel: nat :: SourceRun(c, p, w, m0, fuel) == o
  }

  ghost predicate Ends<P>(mc: Machine<P>, p: P, o: Outcome) {
    exists n: nat :: Run(mc, p, n) == o
  }

  /** A finished emission of p: f is its SSA form, no phi of f is trivial, every
      block is sealed and ends in a terminator. */
  ghost predicate IsEmission(c: Ctx, p: Proc, s: Ssa, f: Program) {
    && c.kinds == p.kinds
    && Finished(s, f) && Minimal(s, {}) && Complete(s)
    && s.blk == EmitProc(c, p).blocks
  }

  lemma GraphIs(w: World, fin: seq<VBlock>)
    ensures Runs(GraphMachine(w, fin), w, fin)
  {
  }

  /** The run of a body, to the return that is added when it has none. */
  lemma BodyFollows(c: Ctx, w: World, body: seq<Stmt>, sk: Skel, mc: Machine<Point>, p0: Point, s0: Store, fuel: nat)
      returns (k: nat)
    requires Runs(mc, w, CloseBody(EmitStmts(c, body, sk)).blocks) && WorldOk(c.kinds, w)
    requires ReturnsLast(body) && EmittableStmts(c, body) && Writable(sk) && Here(c, w, sk, p0, s0)
    ensures var o := ToOutcome(ExecStmts(c.kinds, w, body, s0, fuel));
            Run(mc, p0, if o == OutOfFuel then fuel else k) == o
  {
    var sk1 := EmitStmts(c, body, sk);
    var fin := CloseBody(sk1).blocks;
    EmitAdvances(c, body, sk);
    var r := ExecStmts(c.kinds, w, body, s0, fuel);
    var q;
    k, q := StmtsSim(c, w, body, sk, fin, mc, p0, s0, fuel);
    if r.Normal? {
      ReturnNotNormal(c.kinds, w, body, s0, fuel);
      Halt(c, w, fin, mc, q, CurrBlock(sk1), RetVoid, r.s);
      LeadsRun(mc, p0, k, q, 1);
      k := k + 1;
    }
  }

  /** One run of the reference semantics, followed by the graph. */
  lemma GraphFollows(c: Ctx, p: Proc, w: World, v0: Env, m0: Store, mc: Machine<Point>, fuel: nat) returns (k: nat)
    requires c.kinds == p.kinds && Declared(p) && SlotsFresh(p.kinds, m0) && WorldOk(p.kinds, w)
    requires ReturnsLast(p.body) && EmittableStmts(c, p.body)
    requires Runs(mc, w, EmitProc(c, p).blocks) && forall d :: Eval(w, v0, Entry(d)) == Undefined
    ensures var o := SourceRun(c, p, w, m0, fuel);
            Run(mc, Point(0, v0, m0), if o == OutOfFuel then fuel else k) == o
  {
    EntryAt(c, p, w, v0, m0);
    var entry := AddDecls(c, p.locals, AddDecls(c, p.params, FRESH));
    k := BodyFollows(c, w, p.body, Skel([entry], 0), mc, Point(0, v0, m0),
                     InitStore(c, p.locals, w, InitStore(c, p.params, w, m0)), fuel);
  }

  /** The graph of a procedure ends with an outcome exactly when the reference
      semantics does. */
  lemma GraphPreservesMeaning(c: Ctx, p: Proc, w: World, v0: Env, m0: Store, mc: Machine<Point>, o: Outcome)
    requires c.kinds == p.kinds && Declared(p) && SlotsFresh(p.kinds, m0) && WorldOk(p.kinds, w)
    requires ReturnsLast(p.body) && EmittableStmts(c, p.body) && o != OutOfFuel
    requires Runs(mc, w, EmitProc(c, p).blocks) && forall d :: Eval(w, v0, Entry(d)) == Undefined
    ensures SourceEnds(c, p, w, m0, o) <==> Ends(mc, Point(0, v0, m0), o)
  {
    var p0 := Point(0, v0, m0);
    if SourceEnds(c, p, w, m0, o) {
      var fuel: nat :| SourceRun(c, p, w, m0, fuel) == o;
      var k := GraphFollows(c, p, w, v0, m0, mc, fuel);
    }
    if Ends(mc, p0, o) {
      var n: nat :| Run(mc, p0, n) == o;
      var k := GraphFollows(c, p, w, v0, m0, mc, n);
      RunMono(mc, p0, n, n + k);
      RunMono(mc, p0, k, n + k);
      assert SourceRun(c, p, w, m0, n) == o;
    }
  }

  lemma SameRuns<P, Q>(mc: Machine<P>, p: P, mc1: Machine<Q>, q: Q, o: Outcome)
    requires forall n: nat :: Run(mc, p, n) == Run(mc1, q, n)
    ensures Ends(mc, p, o) <==> Ends(mc1, q, o)
  {
    if Ends(mc, p, o) {
      var n: nat :| Run(mc, p, n) == o;
      assert Run(mc1, q, n) == o;
    }
    if Ends(mc1, q, o) {
      var n: nat :| Run(mc1, q, n) == o;
      assert Run(mc, p, n) == o;
    }
  }

  /** Whatever the procedure is run with, the emitted function ends with an
      outcome exactly when the reference semantics does: the same value returned,
      the same memory left, stuck alike, and running forever alike. */
  lemma EmissionPreservesMeaning(c: Ctx, p: Proc, s: Ssa, f: Program, w: World, m0: Store, o: Outcome)
    requires IsEmission(c, p, s, f) && Declared(p) && SlotsFresh(p.kinds, m0) && WorldOk(p.kinds, w)
    requires ReturnsLast(p.body) && EmittableStmts(c, p.body) && o != OutOfFuel
    ensures SourceEnds(c, p, w, m0, o) <==> Ends(SsaMachine(w, f), SsaStart(m0), o)
  {
    var mc := GraphMachine(w, s.blk);
    GraphIs(w, s.blk);
    NoEntries(w);
    GraphPreservesMeaning(c, p, w, map[], m0, mc, o);
    forall n: nat ensures Run(SsaMachine(w, f), SsaStart(m0), n) == Run(mc, Point(0, map[], m0), n) {
      SsaRefinesGraph(w, s, f, m0, n);
    }
    SameRuns(SsaMachine(w, f), SsaStart(m0), mc, Point(0, map[], m0), o);
  }

  /** What is assumed of a procedure. Sema sees to declarations and types; nothing
      in the compiler checks where RETURN stands (CGProcedure.cpp:738 branches
      without looking) nor that constants pass no scalar of their own. */
  ghost predicate Accepted(p: Proc) {
    && Declared(p) && ReturnsLast(p.body) && TypedStmts(p.kinds, p.body)
    && NotedStmts(p.kinds, p.body, true) <= NotedStmts(p.kinds, p.body, false)
  }

  /** CGProcedure::run: scan, then emit. */
  method EmitProcedure(p: Proc) returns (f: Program, ghost s: Ssa)
    requires Accepted(p)
    ensures IsEmission(Ctx(p.kinds, NotedStmts(p.kinds, p.body, false)), p, s, f)
    ensures forall w, m0, o | SlotsFresh(p.kinds, m0) && WorldOk(p.kinds, w) && o != OutOfFuel ::
              SourceEnds(Ctx(p.kinds, NotedStmts(p.kinds, p.body, false)), p, w, m0, o) <==>
                Ends(SsaMachine(w, f), SsaStart(m0), o)
  {
    var scan := new Scanner(p.kinds);
    scan.CollectStmts(p.body);
    assert {} + NotedStmts(p.kinds, p.body, false) == NotedStmts(p.kinds, p.body, false);
    var c := Ctx(p.kinds, scan.byRef);
    PrescanComplete(p.kinds, p.body);
    var cg := new CGProcedure(c);
    cg.RunBody(p);
    f, s := cg.fn, cg.g;
    NothingPending(s);
    forall w, m0, o | SlotsFresh(p.kinds, m0) && WorldOk(p.kinds, w) && o != OutOfFuel
      ensures SourceEnds(c, p, w, m0, o) <==> Ends(SsaMachine(w, f), SsaStart(m0), o)
    {
      EmissionPreservesMeaning(c, p, s, f, w, m0, o);
    }
  }

  lemma InsInBlock(s: Ssa, k: Key)
    requires Inv(s) && k in s.ins
    ensures k.block < |s.blk|
  {
    assert InOk(s, k);
  }

  /** Once every block is closed, every phi has all its operands. */
  lemma NothingPending(s: Ssa)
    requires Inv(s) && Complete(s) && forall k: Key :: k in s.pending ==> k.block !in s.closed
    ensures s.pending == {}
  {
    forall k: Key | k in s.pending ensures false {
      assert PhiOk(s, k);
      InsInBlock(s, k);
    }
  }
}
