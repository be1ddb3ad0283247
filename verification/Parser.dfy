/** The recursive-descent parser as it runs, moving over the tokens. */
module Parsing {
  import opened Syntax
  import opened RoundTrip

  class Parser {
    const toks: seq<Token>
    var pos: nat

    ghost predicate Valid()
      reads this
    {
      pos <= |toks|
    }

    /** The tokens from the current one on. */
    function Ahead(): seq<Token>
      requires Valid()
      reads this
    {
      toks[pos..]
    }

    constructor (toks: seq<Token>)
      ensures Valid() && Ahead() == toks
    {
      this.toks := toks;
      pos := 0;
    }

    method Advance()
      requires Valid() && Ahead() != []
      modifies this
      ensures Valid() && Ahead() == old(Ahead())[1..]
    {
      pos := pos + 1;
    }

    /** consume: moves past t if it is next. */
    method Consume(t: Token) returns (ok: bool)
      requires Valid()
      modifies this
      ensures Valid() && ok == Sees(old(Ahead()), t)
      ensures Ahead() == if ok then old(Ahead())[1..] else old(Ahead())
    {
      ok := Sees(Ahead(), t);
      if ok { Advance(); }
    }

    // ----- expressions -----

    method ParseExpression() returns (ok: bool, e: Tree)
      requires Valid()
      modifies this
      ensures Valid() && Agrees(Expression(old(Ahead())), ok, e, Ahead())
      ensures |Ahead()| <= |old(Ahead())|
      decreases |Ahead()|, 5
    {
      ok, e := ParseSimpleExpression();
      if !ok { return; }
      if SeesRelation(Ahead()) {
        var op := Ahead()[0].op;
        Advance();
        var right;
        ok, right := ParseSimpleExpression();
        e := Binary(op, e, right);
      } else if Sees(Ahead(), IsTok) {
        Advance();
        ok := Ahead() != [] && Ahead()[0].Ident?;
        if ok {
          e := Is(e, Ahead()[0].name);
          Advance();
        }
      }
    }

    method ParseSimpleExpression() returns (ok: bool, e: Tree)
      requires Valid()
      modifies this
      ensures Valid() && Agrees(Simple(old(Ahead())), ok, e, Ahead())
      ensures |Ahead()| <= |old(Ahead())|
      decreases |Ahead()|, 4
    {
      ghost var ts := Ahead();
      if SeesSign(Ahead()) {
        var op := Ahead()[0].op;
        Advance();
        ok, e := ParseTerm();
        e := Signed(op, e);
      } else {
        ok, e := ParseTerm();
      }
      while ok && SeesAddOp(Ahead())
        invariant Valid() && |Ahead()| <= |ts|
        invariant if ok then |Ahead()| < |ts| && Simple(ts) == SimpleTail(e, Ahead()) else Simple(ts) == Fails
        decreases |Ahead()|, ok
      {
        var op := Ahead()[0].op;
        Advance();
        var right;
        ok, right := ParseTerm();
        e := Binary(op, e, right);
      }
    }

    method ParseTerm() returns (ok: bool, e: Tree)
      requires Valid()
      modifies this
      ensures Valid() && Agrees(Term(old(Ahead())), ok, e, Ahead())
      ensures |Ahead()| <= |old(Ahead())|
      decreases |Ahead()|, 3
    {
      ghost var ts := Ahead();
      ok, e := ParseFactor();
      while ok && SeesMulOp(Ahead())
        invariant Valid() && |Ahead()| <= |ts|
        invariant if ok then |Ahead()| < |ts| && Term(ts) == TermTail(e, Ahead()) else Term(ts) == Fails
        decreases |Ahead()|, ok
      {
        var op := Ahead()[0].op;
        Advance();
        var right;
        ok, right := ParseFactor();
        e := Binary(op, e, right);
      }
    }

    method ParseFactor() returns (ok: bool, e: Tree)
      requires Valid()
      modifies this
      ensures Valid() && Agrees(Factor(old(Ahead())), ok, e, Ahead())
      ensures |Ahead()| <= |old(Ahead())|
      decreases |Ahead()|, 2
    {
      ok, e := Ahead() != [], Num("");
      if !ok { return; }
      var t := Ahead()[0];
      ok := t.IntLit? || t.RealLit? || t.Ident? || t.LParen? || t.NotTok?;
      if !ok { return; }
      Advance();
      match t {
        case IntLit(s) => e := Num(s);
        case RealLit(s) => e := RealNum(s);
        case Ident(n) =>
          assert old(Ahead()) == [Ident(n)] + Ahead();
          ok, e := ParseNamed(n);
        case LParen =>
          ok, e := ParseExpression();
          if ok { ok := Consume(RParen); }
        case NotTok =>
          ok, e := ParseFactor();
          e := Negated(e);
      }
    }

    /** A factor behind the name it starts with. */
    method ParseNamed(n: string) returns (ok: bool, e: Tree)
      requires Valid()
      modifies this
      ensures Valid() && Agrees(Factor([Ident(n)] + old(Ahead())), ok, e, Ahead())
      ensures |Ahead()| <= |old(Ahead())|
      decreases |Ahead()|, 8
    {
      ghost var ts := [Ident(n)] + Ahead();
      assert ts[1..] == Ahead();
      e := Name(n);
      if Sees(Ahead(), LParen) {
        assert ts[2..] == Ahead()[1..];
        Advance();
        var args;
        ok, args := ParseArguments();
        if !ok { return; }
        e := Apply(n, args);
      }
      ok, e := ParseDesignator(e);
    }

    /** What is between the parentheses of a call, and the closing one. */
    method ParseArguments() returns (ok: bool, args: seq<Tree>)
      requires Valid()
      modifies this
      ensures Valid() && Agrees(Arguments(old(Ahead())), ok, args, Ahead())
      ensures |Ahead()| <= |old(Ahead())|
      decreases |Ahead()|, 7
    {
      ok, args := true, [];
      if SeesExpression(Ahead()) {
        ok, args := ParseExpList();
        if !ok { return; }
      }
      ok := Consume(RParen);
    }

    method ParseExpList() returns (ok: bool, es: seq<Tree>)
      requires Valid()
      modifies this
      ensures Valid() && Agrees(ExpList(old(Ahead())), ok, es, Ahead())
      ensures |Ahead()| <= |old(Ahead())|
      decreases |Ahead()|, 6
    {
      ghost var ts := Ahead();
      var e;
      ok, e := ParseExpression();
      es := [e];
      while ok && Sees(Ahead(), Comma)
        invariant Valid() && |Ahead()| <= |ts|
        invariant if ok then |Ahead()| < |ts| && ExpList(ts) == ExpListTail(es, Ahead()) else ExpList(ts) == Fails
        decreases |Ahead()|, ok
      {
        Advance();
        ok, e := ParseExpression();
        es := es + [e];
      }
    }

    method ParseDesignator(base: Tree) returns (ok: bool, e: Tree)
      requires Valid()
      modifies this
      ensures Valid() && Agrees(Designator(base, old(Ahead())), ok, e, Ahead())
      ensures |Ahead()| <= |old(Ahead())|
      decreases |Ahead()|, 1
    {
      ghost var ts := Ahead();
      ok, e := true, base;
      while ok && (Sees(Ahead(), Period) || Sees(Ahead(), LBracket))
        invariant Valid() && |Ahead()| <= |ts|
        invariant Designator(base, ts) == if ok then Designator(e, Ahead()) else Fails
        decreases |Ahead()|, ok
      {
        ok, e := ParseSelector(e);
      }
    }

    /** One selector: an index, a field, or a call of a type-bound procedure. */
    method ParseSelector(base: Tree) returns (ok: bool, e: Tree)
      requires Valid() && (Sees(Ahead(), Period) || Sees(Ahead(), LBracket))
      modifies this
      ensures Valid() && |Ahead()| <= |old(Ahead())|
      ensures ok ==> |Ahead()| < |old(Ahead())|
      ensures Designator(base, old(Ahead())) == if ok then Designator(e, Ahead()) else Fails
      decreases |Ahead()|, 0
    {
      ghost var ts := Ahead();
      e := base;
      if Sees(Ahead(), LBracket) {
        Advance();
        var index;
        ok, index := ParseExpression();
        if !ok { return; }
        ok := Consume(RBracket);
        e := Element(base, index);
      } else {
        Advance();
        ok := Ahead() != [] && Ahead()[0].Ident?;
        if !ok { return; }
        var name := Ahead()[0].name;
        Advance();
        assert Ahead() == ts[2..];
        if Sees(Ahead(), LParen) {
          Advance();
          assert Ahead() == ts[3..];
          var args;
          ok, args := ParseArguments();
          e := Send(base, name, args);
        } else {
          e := Member(base, name);
        }
      }
    }

    // ----- statements -----

    method ParseStatementSequence() returns (ok: bool, ss: seq<STree>)
      requires Valid()
      modifies this
      ensures Valid() && Agrees(Sequence(old(Ahead())), ok, ss, Ahead())
      ensures |Ahead()| <= |old(Ahead())|
      decreases |Ahead()|, 3
    {
      ghost var ts := Ahead();
      ok, ss := ParseStatement([]);
      while ok && Sees(Ahead(), Semi)
        invariant Valid() && |Ahead()| <= |ts|
        invariant Sequence(ts) == if ok then SequenceTail(ss, Ahead()) else Fails
        decreases |Ahead()|, ok
      {
        Advance();
        ok, ss := ParseStatement(ss);
      }
    }

    /** Adds the next statement to ss; nothing where a statement is missing. */
    method ParseStatement(ss: seq<STree>) returns (ok: bool, r: seq<STree>)
      requires Valid()
      modifies this
      ensures Valid() && Agrees(Statement(ss, old(Ahead())), ok, r, Ahead())
      ensures |Ahead()| <= |old(Ahead())|
      decreases |Ahead()|, 2
    {
      ok, r := Ahead() != [], ss;
      if !ok { return; }
      match Ahead()[0] {
        case Ident(n) => ok, r := ParseNamedStatement(ss, n);
        case IfTok => ok, r := ParseIfStatement(ss);
        case WhileTok => ok, r := ParseWhileStatement(ss);
        case ReturnTok => ok, r := ParseReturnStatement(ss);
        case _ => ok := Sees(Ahead(), Semi) || SeesEnd(Ahead());
      }
    }

    /** A call or an assignment. */
    method ParseNamedStatement(ss: seq<STree>, n: string) returns (ok: bool, r: seq<STree>)
      requires Valid() && Sees(Ahead(), Ident(n))
      modifies this
      ensures Valid() && Agrees(Statement(ss, old(Ahead())), ok, r, Ahead())
      ensures |Ahead()| <= |old(Ahead())|
      decreases |Ahead()|, 1
    {
      ghost var ts := Ahead();
      r := ss;
      Advance();
      if Sees(Ahead(), LParen) {
        Advance();
        assert Ahead() == ts[2..];
        var args;
        ok, args := ParseArguments();
        if ok { r := ss + [CallProc(n, args)]; }
        return;
      }
      var target;
      ok, target := ParseDesignator(Name(n));
      if !ok { return; }
      if Sees(Ahead(), ColonEqual) {
        Advance();
        var e;
        ok, e := ParseExpression();
        if ok { r := ss + [AssignTo(target, e)]; }
      } else if target.Send? {
        r := ss + [CallMethod(target)];
      }
    }

    method ParseIfStatement(ss: seq<STree>) returns (ok: bool, r: seq<STree>)
      requires Valid() && Sees(Ahead(), IfTok)
      modifies this
      ensures Valid() && Agrees(Statement(ss, old(Ahead())), ok, r, Ahead())
      ensures |Ahead()| <= |old(Ahead())|
      decreases |Ahead()|, 1
    {
      r := ss;
      Advance();
      var cond;
      ok, cond := ParseExpression();
      if !ok { return; }
      ok := Consume(ThenTok);
      if !ok { return; }
      var thn;
      ok, thn := ParseStatementSequence();
      if !ok { return; }
      ok, r := ParseElse(ss, cond, thn);
    }

    /** What follows the first arm of an IF. */
    method ParseElse(ss: seq<STree>, cond: Tree, thn: seq<STree>) returns (ok: bool, r: seq<STree>)
      requires Valid()
      modifies this
      ensures Valid() && Agrees(IfRest(ss, cond, thn, old(Ahead())), ok, r, Ahead())
      ensures |Ahead()| <= |old(Ahead())|
      decreases |Ahead()|, 4
    {
      r := ss;
      var els := [];
      if Sees(Ahead(), ElseTok) {
        Advance();
        ok, els := ParseStatementSequence();
        if !ok { return; }
      }
      ok := Consume(EndTok);
      if ok { r := ss + [IfThen(cond, thn, els)]; }
    }

    method ParseWhileStatement(ss: seq<STree>) returns (ok: bool, r: seq<STree>)
      requires Valid() && Sees(Ahead(), WhileTok)
      modifies this
      ensures Valid() && Agrees(Statement(ss, old(Ahead())), ok, r, Ahead())
      ensures |Ahead()| <= |old(Ahead())|
      decreases |Ahead()|, 1
    {
      r := ss;
      Advance();
      var cond;
      ok, cond := ParseExpression();
      if !ok { return; }
      ok := Consume(DoTok);
      if !ok { return; }
      var body;
      ok, body := ParseStatementSequence();
      if !ok { return; }
      ok := Consume(EndTok);
      if ok { r := ss + [WhileDo(cond, body)]; }
    }

    method ParseReturnStatement(ss: seq<STree>) returns (ok: bool, r: seq<STree>)
      requires Valid() && Sees(Ahead(), ReturnTok)
      modifies this
      ensures Valid() && Agrees(Statement(ss, old(Ahead())), ok, r, Ahead())
      ensures |Ahead()| <= |old(Ahead())|
      decreases |Ahead()|, 1
    {
      ok, r := true, ss + [ReturnWith(Source.None)];
      Advance();
      if SeesExpression(Ahead()) {
        var e;
        ok, e := ParseExpression();
        r := ss + [ReturnWith(Source.Some(e))];
      }
    }
  }

  /** The outcome of a method is the one its function says. */
  ghost predicate Agrees<T>(r: Parsed<T>, ok: bool, v: T, rest: seq<Token>) {
    if r.Ok? then ok && v == r.v && rest == r.rest else !ok
  }

  /** The parser reads back what was printed. */
  method ReadBack(t: Tree, rest: seq<Token>) returns (ok: bool, e: Tree, left: seq<Token>)
    requires Valid(t) && Stops(rest, 0)
    ensures ok && e == Plain(t) && left == rest
  {
    ExpressionRoundTrip(t, rest);
    var p := new Parser(Print(t, 0) + rest);
    ok, e := p.ParseExpression();
    left := p.Ahead();
  }

  method ReadStatementsBack(ss: seq<STree>, rest: seq<Token>, semicolon: bool)
    returns (ok: bool, r: seq<STree>, left: seq<Token>)
    requires ValidStmts(ss) && SeesEnd(rest)
    ensures ok && r == PlainStmts(ss) && left == rest
  {
    StatementsRoundTrip(ss, rest);
    var p := new Parser(PrintStmts(ss) + if semicolon then [Semi] + rest else rest);
    ok, r := p.ParseStatementSequence();
    left := p.Ahead();
  }
}
