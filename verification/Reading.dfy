/** The other half of the round trip: whatever the parser accepts is a written
    tree. It builds that tree without its additional parentheses, and what it
    leaves is what stands behind it. */
module Reading {
  import opened Syntax
  import opened RoundTrip

  lemma Regroup<T>(a: seq<T>, b: seq<T>, c: seq<T>, d: seq<T>)
    ensures a + b + c + d == a + (b + (c + d))
  {
  }

  // ----- expressions -----

  lemma {:induction false} ExpressionWritten(ts: seq<Token>) returns (t: Tree)
    requires Expression(ts).Ok?
    ensures Valid(t) && Plain(t) == Expression(ts).v && ts == Bare(t) + Expression(ts).rest
    decreases |ts|, 5
  {
    var r := Simple(ts);
    var l := SimpleWritten(ts);
    var more := r.rest;
    if SeesRelation(more) {
      var rr := SimpleWritten(more[1..]);
      var op := more[0].op;
      t := Binary(op, l, rr);
      assert more == [OpTok(op)] + more[1..];
      Regroup(Bare(l), [OpTok(op)], Bare(rr), Simple(more[1..]).rest);
    } else if Sees(more, IsTok) {
      t := Is(l, more[1].name);
      assert more == [IsTok, Ident(more[1].name)] + more[2..];
      Cat3(Bare(l), [IsTok, Ident(more[1].name)], more[2..]);
    } else {
      t := l;
    }
  }

  lemma {:induction false} SimpleWritten(ts: seq<Token>) returns (t: Tree)
    requires Simple(ts).Ok?
    ensures Valid(t) && Level(t) >= 1 && Plain(t) == Simple(ts).v && ts == Bare(t) + Simple(ts).rest
    decreases |ts|, 4
  {
    if SeesSign(ts) {
      var e := TermWritten(ts[1..]);
      var s := Signed(ts[0].op, e);
      assert ts == [OpTok(ts[0].op)] + ts[1..];
      Cat3([OpTok(ts[0].op)], Bare(e), Term(ts[1..]).rest);
      t := SimpleTailWritten(s, Term(ts[1..]).rest);
    } else {
      var e := TermWritten(ts);
      t := SimpleTailWritten(e, Term(ts).rest);
    }
  }

  lemma {:induction false} SimpleTailWritten(l: Tree, ts: seq<Token>) returns (t: Tree)
    requires Valid(l) && Level(l) >= 1 && SimpleTail(Plain(l), ts).Ok?
    ensures Valid(t) && Level(t) >= 1 && Plain(t) == SimpleTail(Plain(l), ts).v
    ensures Bare(l) + ts == Bare(t) + SimpleTail(Plain(l), ts).rest
    decreases |ts|, 4
  {
    t := l;
    if SeesAddOp(ts) {
      var op, rest := ts[0].op, Term(ts[1..]).rest;
      var e := TermWritten(ts[1..]);
      var s := Binary(op, l, e);
      assert ts == [OpTok(op)] + ts[1..];
      Regroup(Bare(l), [OpTok(op)], Bare(e), rest);
      t := SimpleTailWritten(s, rest);
    }
  }

  lemma {:induction false} TermWritten(ts: seq<Token>) returns (t: Tree)
    requires Term(ts).Ok?
    ensures Valid(t) && Level(t) >= 2 && Plain(t) == Term(ts).v && ts == Bare(t) + Term(ts).rest
    decreases |ts|, 3
  {
    var e := FactorWritten(ts);
    t := TermTailWritten(e, Factor(ts).rest);
  }

  lemma {:induction false} TermTailWritten(l: Tree, ts: seq<Token>) returns (t: Tree)
    requires Valid(l) && Level(l) >= 2 && TermTail(Plain(l), ts).Ok?
    ensures Valid(t) && Level(t) >= 2 && Plain(t) == TermTail(Plain(l), ts).v
    ensures Bare(l) + ts == Bare(t) + TermTail(Plain(l), ts).rest
    decreases |ts|, 3
  {
    t := l;
    if SeesMulOp(ts) {
      var op, rest := ts[0].op, Factor(ts[1..]).rest;
      var e := FactorWritten(ts[1..]);
      var s := Binary(op, l, e);
      assert ts == [OpTok(op)] + ts[1..];
      Regroup(Bare(l), [OpTok(op)], Bare(e), rest);
      t := TermTailWritten(s, rest);
    }
  }

  lemma {:induction false} FactorWritten(ts: seq<Token>) returns (t: Tree)
    requires Factor(ts).Ok?
    ensures Valid(t) && Level(t) == 3 && Plain(t) == Factor(ts).v && ts == Bare(t) + Factor(ts).rest
    decreases |ts|, 2
  {
    assert ts == [ts[0]] + ts[1..];
    match ts[0]
    case IntLit(s) => t := Num(s);
    case RealLit(s) => t := RealNum(s);
    case Ident(n) =>
      if Sees(ts[1..], LParen) {
        var call, r := CallWritten(ts, n);
        t := DesignatorWritten(call, r);
      } else {
        t := DesignatorWritten(Name(n), ts[1..]);
      }
    case LParen =>
      var e := ExpressionWritten(ts[1..]);
      t := GroupWritten(ts, e);
    case NotTok =>
      var e := FactorWritten(ts[1..]);
      t := Negated(e);
      Cat3([NotTok], Bare(e), Factor(ts[1..]).rest);
  }

  lemma {:induction false} ArgumentsWritten(ts: seq<Token>) returns (args: seq<Tree>)
    requires Arguments(ts).Ok?
    ensures ValidAll(args) && PlainAll(args) == Arguments(ts).v &&
            ts == PrintArgs(args) + ([RParen] + Arguments(ts).rest)
    decreases |ts|, 7
  {
    if SeesExpression(ts) {
      args := ExpListWritten(ts);
      var r := ExpList(ts).rest;
      assert r == [RParen] + r[1..];
    } else {
      args := [];
      assert ts == [RParen] + ts[1..];
    }
  }

  lemma {:induction false} ExpListWritten(ts: seq<Token>) returns (args: seq<Tree>)
    requires ExpList(ts).Ok?
    ensures ValidAll(args) && PlainAll(args) == ExpList(ts).v && ts == PrintArgs(args) + ExpList(ts).rest
    decreases |ts|, 6
  {
    var e := ExpressionWritten(ts);
    var r := Expression(ts).rest;
    var more := ExpListTailWritten([Plain(e)], r);
    args := [e] + more;
    assert args[1..] == more && args[0] == e;
    FirstArg(args);
    Cat3(Bare(e), PrintMore(more), ExpList(ts).rest);
  }

  lemma {:induction false} ExpListTailWritten(es: seq<Tree>, ts: seq<Token>) returns (args: seq<Tree>)
    requires ExpListTail(es, ts).Ok?
    ensures ValidAll(args) && es + PlainAll(args) == ExpListTail(es, ts).v
    ensures ts == PrintMore(args) + ExpListTail(es, ts).rest
    decreases |ts|, 6
  {
    args := [];
    if Sees(ts, Comma) {
      var e := ExpressionWritten(ts[1..]);
      var r := Expression(ts[1..]).rest;
      CommaStep(es, Plain(e), ts, r);
      var more := ExpListTailWritten(es + [Plain(e)], r);
      args := [e] + more;
      MoreArgs(es, e, more, ts, ExpListTail(es, ts).rest);
    }
  }

  lemma MoreArgs(es: seq<Tree>, e: Tree, more: seq<Tree>, ts: seq<Token>, rest: seq<Token>)
    requires Valid(e) && ValidAll(more) && Sees(ts, Comma) && ts[1..] == Bare(e) + (PrintMore(more) + rest)
    ensures ValidAll([e] + more) && ts == PrintMore([e] + more) + rest
    ensures es + PlainAll([e] + more) == es + [Plain(e)] + PlainAll(more)
  {
    var args := [e] + more;
    assert args[1..] == more && args[0] == e;
    Cat3(es, [Plain(e)], PlainAll(more));
    CommaTokens(args, rest);
    assert Print(e, 0) == Bare(e);
    assert ts == [Comma] + ts[1..];
    assert PrintMore(args) + rest == [Comma] + (PrintMore(args) + rest)[1..];
  }

  lemma {:induction false} DesignatorWritten(l: Tree, ts: seq<Token>) returns (t: Tree)
    requires Valid(l) && IsPostfix(l) && Designator(Plain(l), ts).Ok?
    ensures Valid(t) && IsPostfix(t) && Plain(t) == Designator(Plain(l), ts).v
    ensures Bare(l) + ts == Bare(t) + Designator(Plain(l), ts).rest
    ensures IsNamed(l) ==> IsNamed(t)
    decreases |ts|, 1
  {
    t := l;
    if Sees(ts, LBracket) {
      var e, r := ElementWritten(l, ts);
      t := DesignatorWritten(e, r);
    } else if Sees(ts, Period) {
      NameBehindPeriod(Plain(l), ts);
      if Sees(ts[2..], LParen) {
        var e, r := SendWritten(l, ts);
        t := DesignatorWritten(e, r);
      } else {
        MemberWritten(l, ts);
        t := DesignatorWritten(Member(l, ts[1].name), ts[2..]);
      }
    }
  }

  lemma NameBehindPeriod(e: Tree, ts: seq<Token>)
    requires Sees(ts, Period) && Designator(e, ts).Ok?
    ensures |ts| > 1 && ts[1].Ident? && (Sees(ts[2..], LParen) ==> Arguments(ts[3..]).Ok?)
  {
  }

  lemma ElementWritten(l: Tree, ts: seq<Token>) returns (t: Tree, r: seq<Token>)
    requires Valid(l) && IsPostfix(l) && Sees(ts, LBracket) && Designator(Plain(l), ts).Ok?
    ensures Valid(t) && IsPostfix(t) && (IsNamed(l) ==> IsNamed(t)) && |r| < |ts| && Bare(l) + ts == Bare(t) + r
    ensures Designator(Plain(t), r) == Designator(Plain(l), ts)
    decreases |ts|, 0
  {
    var i := ExpressionWritten(ts[1..]);
    var more := Expression(ts[1..]).rest;
    r := more[1..];
    t := Element(l, i);
    assert ts == [LBracket] + ts[1..] && more == [RBracket] + r;
    ElementTokens(Bare(l), Bare(i), r);
    IndexStep(Plain(l), Plain(i), ts, more);
  }

  lemma SendWritten(l: Tree, ts: seq<Token>) returns (t: Tree, r: seq<Token>)
    requires Valid(l) && IsPostfix(l) && Sees(ts, Period) && |ts| > 2 && Sees(ts[2..], LParen) &&
             Designator(Plain(l), ts).Ok?
    ensures Valid(t) && IsPostfix(t) && (IsNamed(l) ==> IsNamed(t)) && |r| < |ts| && Bare(l) + ts == Bare(t) + r
    ensures Designator(Plain(t), r) == Designator(Plain(l), ts)
    decreases |ts|, 0
  {
    var n := ts[1].name;
    var args := ArgumentsWritten(ts[3..]);
    r := Arguments(ts[3..]).rest;
    t := Send(l, n, args);
    assert ts[2..][0] == ts[2];
    assert ts == [Period, Ident(n), LParen] + ts[3..];
    SendTokens(Bare(l), n, PrintArgs(args), r);
    Cat3(PrintArgs(args), [RParen], r);
    SendStep(Plain(l), n, PlainAll(args), ts, r);
  }

  lemma MemberWritten(l: Tree, ts: seq<Token>)
    requires Valid(l) && IsPostfix(l) && Sees(ts, Period) && |ts| > 1 && ts[1].Ident? && !Sees(ts[2..], LParen)
    ensures Bare(l) + ts == Bare(Member(l, ts[1].name)) + ts[2..]
    ensures Designator(Plain(Member(l, ts[1].name)), ts[2..]) == Designator(Plain(l), ts)
  {
    var n := ts[1].name;
    assert ts == [Period, Ident(n)] + ts[2..];
    Cat3(Bare(l), [Period, Ident(n)], ts[2..]);
    MemberStep(Plain(l), n, ts);
  }

  lemma CallWritten(ts: seq<Token>, n: string) returns (t: Tree, r: seq<Token>)
    requires ts != [] && ts[0] == Ident(n) && Sees(ts[1..], LParen) && Factor(ts).Ok?
    ensures Valid(t) && IsPostfix(t) && |r| < |ts| && ts == Bare(t) + r && Factor(ts) == Designator(Plain(t), r)
    decreases |ts|, 1
  {
    var args := ArgumentsWritten(ts[2..]);
    r := Arguments(ts[2..]).rest;
    t := Apply(n, args);
    assert ts[1..][0] == ts[1];
    assert ts == [Ident(n), LParen] + ts[2..];
    Regroup([Ident(n), LParen], PrintArgs(args), [RParen], r);
    ApplyStep(n, PlainAll(args), ts, r);
  }

  lemma GroupWritten(ts: seq<Token>, e: Tree) returns (t: Tree)
    requires Sees(ts, LParen) && Factor(ts).Ok? && Expression(ts[1..]).Ok?
    requires Valid(e) && Plain(e) == Expression(ts[1..]).v && ts[1..] == Bare(e) + Expression(ts[1..]).rest
    ensures Valid(t) && Level(t) == 3 && Plain(t) == Factor(ts).v && ts == Bare(t) + Factor(ts).rest
  {
    var r := Expression(ts[1..]).rest;
    t := Group(e);
    assert ts == [LParen] + ts[1..] && r == [RParen] + r[1..];
    Regroup([LParen], Bare(e), [RParen], r[1..]);
  }

  /** What the parser accepts as an expression is a written expression with
      something behind it. */
  lemma ExpressionRead(ts: seq<Token>)
    requires Expression(ts).Ok?
    ensures exists t :: Valid(t) && Plain(t) == Expression(ts).v && ts == Print(t, 0) + Expression(ts).rest
  {
    var t := ExpressionWritten(ts);
    assert Print(t, 0) == Bare(t);
  }

  // ----- statements -----

  lemma {:induction false} StatementWritten(ss: seq<STree>, ts: seq<Token>) returns (st: STree)
    requires Statement(ss, ts).Ok?
    ensures ValidStmt(st) && Statement(ss, ts).v == ss + PlainStmt(st) && ts == PrintStmt(st) + Statement(ss, ts).rest
    decreases |ts|, 1
  {
    if ts[0].Ident? {
      if Sees(ts[1..], LParen) {
        st := CallProcWritten(ss, ts, ts[0].name);
      } else {
        st := NamedWritten(ss, ts, ts[0].name);
      }
    } else if Sees(ts, IfTok) {
      st := IfWritten(ss, ts);
    } else if Sees(ts, WhileTok) {
      st := WhileWritten(ss, ts);
    } else if Sees(ts, ReturnTok) {
      st := ReturnWritten(ss, ts);
    } else {
      NothingWritten(ss, ts);
      st := Nothing;
    }
  }

  lemma NothingWritten(ss: seq<STree>, ts: seq<Token>)
    requires ts != [] && !ts[0].Ident? && !Sees(ts, IfTok) && !Sees(ts, WhileTok) && !Sees(ts, ReturnTok)
    requires Statement(ss, ts).Ok?
    ensures Statement(ss, ts).v == ss + PlainStmt(Nothing) && ts == PrintStmt(Nothing) + Statement(ss, ts).rest
  {
    assert ss + [] == ss && [] + ts == ts;
  }

  lemma CallProcWritten(ss: seq<STree>, ts: seq<Token>, n: string) returns (st: STree)
    requires ts != [] && ts[0] == Ident(n) && Sees(ts[1..], LParen) && Statement(ss, ts).Ok?
    ensures ValidStmt(st) && Statement(ss, ts).v == ss + PlainStmt(st) && ts == PrintStmt(st) + Statement(ss, ts).rest
  {
    var args := ArgumentsWritten(ts[2..]);
    var r := Arguments(ts[2..]).rest;
    st := CallProc(n, args);
    assert ts[1..][0] == ts[1];
    assert ts == [Ident(n), LParen] + ts[2..];
    Regroup([Ident(n), LParen], PrintArgs(args), [RParen], r);
    CallStep(ss, n, PlainAll(args), ts, r);
  }

  lemma NamedWritten(ss: seq<STree>, ts: seq<Token>, n: string) returns (st: STree)
    requires ts != [] && ts[0] == Ident(n) && !Sees(ts[1..], LParen) && Statement(ss, ts).Ok?
    ensures ValidStmt(st) && Statement(ss, ts).v == ss + PlainStmt(st) && ts == PrintStmt(st) + Statement(ss, ts).rest
  {
    var target := DesignatorWritten(Name(n), ts[1..]);
    var r := Designator(Name(n), ts[1..]).rest;
    assert ts == [Ident(n)] + ts[1..];
    if Sees(r, ColonEqual) {
      var e := ExpressionWritten(r[1..]);
      st := AssignTo(target, e);
      assert r == [ColonEqual] + r[1..];
      Regroup(Bare(target), [ColonEqual], Bare(e), Expression(r[1..]).rest);
    } else {
      st := if target.Send? then CallMethod(target) else Mention(target);
      StaysSend(target);
      assert ss + [] == ss;
    }
  }

  lemma StaysSend(t: Tree)
    requires IsNamed(t)
    ensures Plain(t).Send? <==> t.Send?
  {
  }

  lemma ReturnWritten(ss: seq<STree>, ts: seq<Token>) returns (st: STree)
    requires Sees(ts, ReturnTok) && Statement(ss, ts).Ok?
    ensures ValidStmt(st) && Statement(ss, ts).v == ss + PlainStmt(st) && ts == PrintStmt(st) + Statement(ss, ts).rest
  {
    assert ts == [ReturnTok] + ts[1..];
    if SeesExpression(ts[1..]) {
      var e := ExpressionWritten(ts[1..]);
      st := ReturnWith(Source.Some(e));
      Cat3([ReturnTok], Bare(e), Expression(ts[1..]).rest);
    } else {
      st := ReturnWith(Source.None);
    }
  }

  lemma WhileWritten(ss: seq<STree>, ts: seq<Token>) returns (st: STree)
    requires Sees(ts, WhileTok) && Statement(ss, ts).Ok?
    ensures ValidStmt(st) && Statement(ss, ts).v == ss + PlainStmt(st) && ts == PrintStmt(st) + Statement(ss, ts).rest
    decreases |ts|, 0
  {
    var c := ExpressionWritten(ts[1..]);
    var r := Expression(ts[1..]).rest;
    var body := SequenceWritten(r[1..]);
    var end := Sequence(r[1..]).rest;
    st := WhileDo(c, body);
    WhileTokensWritten(ts, r, end, c, body);
    WhileStep(ss, Plain(c), PlainStmts(body), ts, r, end);
  }

  lemma WhileTokensWritten(ts: seq<Token>, r: seq<Token>, end: seq<Token>, c: Tree, body: seq<STree>)
    requires Sees(ts, WhileTok) && ts[1..] == Bare(c) + r && Sees(r, DoTok) && r[1..] == PrintStmts(body) + end
    requires Sees(end, EndTok)
    ensures ts == PrintStmt(WhileDo(c, body)) + end[1..]
  {
    assert ts == [WhileTok] + ts[1..] && r == [DoTok] + r[1..] && end == [EndTok] + end[1..];
    WhileTokens(Bare(c), PrintStmts(body), end[1..]);
    assert Print(c, 0) == Bare(c);
  }

  lemma IfWritten(ss: seq<STree>, ts: seq<Token>) returns (st: STree)
    requires Sees(ts, IfTok) && Statement(ss, ts).Ok?
    ensures ValidStmt(st) && Statement(ss, ts).v == ss + PlainStmt(st) && ts == PrintStmt(st) + Statement(ss, ts).rest
    decreases |ts|, 0
  {
    var c := ExpressionWritten(ts[1..]);
    var r := Expression(ts[1..]).rest;
    var thn := SequenceWritten(r[1..]);
    var tail := Sequence(r[1..]).rest;
    IfRestIs(ss, Plain(c), PlainStmts(thn), tail);
    var els, end := ElseWritten(tail);
    st := IfThen(c, thn, els);
    IfTokensWritten(ts, r, tail, end, c, thn, els);
    IfStep(ss, Plain(c), PlainStmts(thn), PlainStmts(els), els == [], ts, r, tail, end);
  }

  lemma IfTokensWritten(ts: seq<Token>, r: seq<Token>, tail: seq<Token>, end: seq<Token>, c: Tree, thn: seq<STree>,
                        els: seq<STree>)
    requires Sees(ts, IfTok) && ts[1..] == Bare(c) + r && Sees(r, ThenTok) && r[1..] == PrintStmts(thn) + tail
    requires Sees(end, EndTok) && tail == if els == [] then end else [ElseTok] + (PrintStmts(els) + end)
    ensures ts == PrintStmt(IfThen(c, thn, els)) + end[1..]
  {
    assert ts == [IfTok] + ts[1..] && r == [ThenTok] + r[1..] && end == [EndTok] + end[1..];
    IfTokens(Bare(c), PrintStmts(thn), PrintStmts(els), els == [], end[1..]);
    assert Print(c, 0) == Bare(c);
  }

  lemma IfRestIs(ss: seq<STree>, c: Tree, thn: seq<STree>, tail: seq<Token>)
    requires IfRest(ss, c, thn, tail).Ok?
    ensures if Sees(tail, ElseTok) then Sequence(tail[1..]).Ok? && Sees(Sequence(tail[1..]).rest, EndTok)
            else Sees(tail, EndTok)
  {
  }

  lemma ElseWritten(tail: seq<Token>) returns (els: seq<STree>, end: seq<Token>)
    requires if Sees(tail, ElseTok) then Sequence(tail[1..]).Ok? && Sees(Sequence(tail[1..]).rest, EndTok)
             else Sees(tail, EndTok)
    ensures ValidStmts(els) && Sees(end, EndTok)
    ensures els == [] ==> tail == end
    ensures els != [] ==> Sees(tail, ElseTok) && Sequence(tail[1..]) == Ok(PlainStmts(els), end)
    ensures els != [] ==> tail == [ElseTok] + (PrintStmts(els) + end)
    decreases |tail|, 4
  {
    if Sees(tail, ElseTok) {
      els := SequenceWritten(tail[1..]);
      end := Sequence(tail[1..]).rest;
      assert tail == [ElseTok] + tail[1..];
    } else {
      els, end := [], tail;
    }
  }

  lemma {:induction false} SequenceWritten(ts: seq<Token>) returns (ss: seq<STree>)
    requires Sequence(ts).Ok?
    ensures ss != [] && ValidStmts(ss) && PlainStmts(ss) == Sequence(ts).v && ts == PrintStmts(ss) + Sequence(ts).rest
    decreases |ts|, 3
  {
    var st := StatementWritten([], ts);
    var r := Statement([], ts).rest;
    assert [] + PlainStmt(st) == PlainStmt(st);
    var more := SequenceTailWritten(PlainStmt(st), r);
    ss := [st] + more;
    assert ss[1..] == more && ss[0] == st;
    FirstTokens(ss, Sequence(ts).rest);
  }

  lemma {:induction false} SequenceTailWritten(done: seq<STree>, ts: seq<Token>) returns (ss: seq<STree>)
    requires SequenceTail(done, ts).Ok?
    ensures ValidStmts(ss) && done + PlainStmts(ss) == SequenceTail(done, ts).v
    ensures ts == PrintRest(ss) + SequenceTail(done, ts).rest
    decreases |ts|, 2
  {
    ss := [];
    if Sees(ts, Semi) {
      var st := StatementWritten(done, ts[1..]);
      var r := Statement(done, ts[1..]).rest;
      SemiStep(done, done + PlainStmt(st), ts, r);
      var more := SequenceTailWritten(done + PlainStmt(st), r);
      ss := [st] + more;
      MoreWritten(done, st, more, ts, SequenceTail(done, ts).rest);
    }
  }

  lemma MoreWritten(done: seq<STree>, st: STree, more: seq<STree>, ts: seq<Token>, rest: seq<Token>)
    requires ValidStmt(st) && ValidStmts(more) && Sees(ts, Semi)
    requires ts[1..] == PrintStmt(st) + (PrintRest(more) + rest)
    ensures ValidStmts([st] + more) && ts == PrintRest([st] + more) + rest
    ensures done + PlainStmts([st] + more) == done + PlainStmt(st) + PlainStmts(more)
  {
    var ss := [st] + more;
    assert ss[1..] == more && ss[0] == st;
    Cat3(done, PlainStmt(st), PlainStmts(more));
    assert ts == [Semi] + ts[1..];
    RestTokens(ss, rest);
    assert PrintRest(ss) + rest == [Semi] + (PrintRest(ss) + rest)[1..];
  }

  /** What the parser accepts as statements is written statements with something
      behind them. */
  lemma StatementsRead(ts: seq<Token>)
    requires Sequence(ts).Ok?
    ensures exists ss :: ValidStmts(ss) && PlainStmts(ss) == Sequence(ts).v && ts == PrintStmts(ss) + Sequence(ts).rest
  {
    var ss := SequenceWritten(ts);
  }
}
