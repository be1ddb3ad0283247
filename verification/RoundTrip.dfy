/** Printing with parentheses only around what binds too loosely, and why the parser
    gets the tree back. */
module RoundTrip {
  import opened Syntax

  /** How loosely a tree binds: 0 a relation, 1 a sum, 2 a product, 3 a factor. */
  function Level(t: Tree): nat {
    match t
    case Binary(op, _, _) => if IsRelation(op) then 0 else if IsAddOp(op) then 1 else 2
    case Is(_, _) => 0
    case Signed(_, _) => 1
    case _ => 3
  }

  /** The trees that selectors apply to. */
  predicate IsPostfix(t: Tree) { t.Name? || t.Apply? || t.Element? || t.Member? || t.Send? }

  /** The trees of the grammar: selectors follow names and calls, signs are signs. */
  predicate Valid(t: Tree)
    decreases t
  {
    match t
    case Apply(_, args) => ValidAll(args)
    case Element(base, i) => IsPostfix(base) && Valid(base) && Valid(i)
    case Member(base, _) => IsPostfix(base) && Valid(base)
    case Send(base, _, args) => IsPostfix(base) && Valid(base) && ValidAll(args)
    case Signed(op, e) => IsSign(op) && Valid(e)
    case Negated(e) => Valid(e)
    case Binary(_, l, r) => Valid(l) && Valid(r)
    case Is(l, _) => Valid(l)
    case Group(e) => Valid(e)
    case _ => true
  }

  predicate ValidAll(ts: seq<Tree>)
    decreases ts
  {
    ts == [] || (Valid(ts[0]) && ValidAll(ts[1..]))
  }

  /** What is written, without the parentheses written in addition. */
  function Plain(t: Tree): (r: Tree)
    ensures IsPostfix(t) ==> IsPostfix(r)
    decreases t
  {
    match t
    case Apply(n, args) => Apply(n, PlainAll(args))
    case Element(base, i) => Element(Plain(base), Plain(i))
    case Member(base, n) => Member(Plain(base), n)
    case Send(base, n, args) => Send(Plain(base), n, PlainAll(args))
    case Signed(op, e) => Signed(op, Plain(e))
    case Negated(e) => Negated(Plain(e))
    case Binary(op, l, r) => Binary(op, Plain(l), Plain(r))
    case Is(l, ty) => Is(Plain(l), ty)
    case Group(e) => Plain(e)
    case _ => t
  }

  function PlainAll(ts: seq<Tree>): (r: seq<Tree>)
    ensures |r| == |ts|
    decreases ts
  {
    if ts == [] then [] else [Plain(ts[0])] + PlainAll(ts[1..])
  }

  // ----- printing -----

  /** t where level k is wanted: in parentheses if it binds more loosely. */
  function Print(t: Tree, k: nat): seq<Token>
    decreases t, 1
  {
    if Level(t) < k then [LParen] + Bare(t) + [RParen] else Bare(t)
  }

  function Bare(t: Tree): (r: seq<Token>)
    ensures r != []
    decreases t, 0
  {
    match t
    case Num(s) => [IntLit(s)]
    case RealNum(s) => [RealLit(s)]
    case Name(n) => [Ident(n)]
    case Apply(n, args) => [Ident(n), LParen] + PrintArgs(args) + [RParen]
    case Element(base, i) => Bare(base) + [LBracket] + Print(i, 0) + [RBracket]
    case Member(base, n) => Bare(base) + [Period, Ident(n)]
    case Send(base, n, args) => Bare(base) + [Period, Ident(n), LParen] + PrintArgs(args) + [RParen]
    case Signed(op, e) => [OpTok(op)] + Print(e, 2)
    case Negated(e) => [NotTok] + Print(e, 3)
    case Is(l, ty) => Print(l, 1) + [IsTok, Ident(ty)]
    case Group(e) => [LParen] + Print(e, 0) + [RParen]
    case Binary(op, l, r) =>
      if IsRelation(op) then Print(l, 1) + [OpTok(op)] + Print(r, 1)
      else if IsAddOp(op) then Print(l, 1) + [OpTok(op)] + Print(r, 2)
      else Print(l, 2) + [OpTok(op)] + Print(r, 3)
  }

  function PrintArgs(args: seq<Tree>): seq<Token>
    decreases args
  {
    if args == [] then []
    else if |args| == 1 then Print(args[0], 0)
    else Print(args[0], 0) + [Comma] + PrintArgs(args[1..])
  }

  // ----- expressions -----

  /** Nothing in rest continues an expression of level k. */
  predicate Stops(rest: seq<Token>, k: nat) {
    && !Sees(rest, Period) && !Sees(rest, LBracket) && !Sees(rest, LParen)
    && (k <= 2 ==> !SeesMulOp(rest))
    && (k <= 1 ==> !SeesAddOp(rest))
    && (k == 0 ==> !SeesRelation(rest) && !Sees(rest, IsTok))
  }

  /** How printed trees begin. */
  lemma {:induction false} Begins(t: Tree, k: nat)
    requires Valid(t) && k <= 3
    ensures Print(t, k) != [] && SeesExpression(Print(t, k)) && (k >= 2 ==> !SeesSign(Print(t, k)))
    ensures IsPostfix(t) ==> Print(t, k) == Bare(t) && Bare(t)[0].Ident?
    decreases t
  {
    match t
    case Element(base, _) => Begins(base, 0);
    case Member(base, _) => Begins(base, 0);
    case Send(base, _, _) => Begins(base, 0);
    case Binary(op, l, _) => Begins(l, if IsRelation(op) || IsAddOp(op) then 1 else 2);
    case Is(l, _) => Begins(l, 1);
    case _ =>
  }

  // One selector at a time.

  lemma IndexStep(e: Tree, i: Tree, ts: seq<Token>, more: seq<Token>)
    requires Sees(ts, LBracket) && Expression(ts[1..]) == Ok(i, more) && Sees(more, RBracket)
    ensures Designator(e, ts) == Designator(Element(e, i), more[1..])
  {
  }

  lemma MemberStep(e: Tree, n: string, ts: seq<Token>)
    requires |ts| >= 2 && ts[0] == Period && ts[1] == Ident(n) && !Sees(ts[2..], LParen)
    ensures Designator(e, ts) == Designator(Member(e, n), ts[2..])
  {
  }

  lemma SendStep(e: Tree, n: string, args: seq<Tree>, ts: seq<Token>, rest: seq<Token>)
    requires |ts| >= 3 && ts[0] == Period && ts[1] == Ident(n) && ts[2] == LParen &&
             Arguments(ts[3..]) == Ok(args, rest)
    ensures Designator(e, ts) == Designator(Send(e, n, args), rest)
  {
    assert ts[2..][0] == LParen;
  }

  lemma ApplyStep(n: string, args: seq<Tree>, ts: seq<Token>, rest: seq<Token>)
    requires |ts| >= 2 && ts[0] == Ident(n) && ts[1] == LParen && Arguments(ts[2..]) == Ok(args, rest)
    ensures Factor(ts) == Designator(Apply(n, args), rest)
  {
    assert ts[1..][0] == LParen;
  }

  lemma NameStep(n: string, ts: seq<Token>)
    requires ts != [] && ts[0] == Ident(n) && !Sees(ts[1..], LParen)
    ensures Factor(ts) == Designator(Name(n), ts[1..])
  {
  }

  lemma Cat3<T>(a: seq<T>, b: seq<T>, c: seq<T>)
    ensures a + b + c == a + (b + c)
    ensures (a + b + c)[|a|..] == b + c
  {
  }

  /** Behind the name or call a postfix tree starts with, the parser goes on with
      its selectors. */
  lemma {:induction false} PostfixParses(t: Tree, rest: seq<Token>)
    requires Valid(t) && IsPostfix(t) && !Sees(rest, LParen)
    ensures Factor(Bare(t) + rest) == Designator(Plain(t), rest)
    decreases t, 1
  {
    match t
    case Name(n) => NameStep(n, [Ident(n)] + rest);
    case Apply(n, args) =>
      ArgsParse(args, rest);
      var inside := PrintArgs(args) + [RParen];
      Cat3([Ident(n), LParen], inside, rest);
      assert Bare(t) == [Ident(n), LParen] + inside;
      ApplyStep(n, PlainAll(args), [Ident(n), LParen] + inside + rest, rest);
    case Element(base, i) => ElementParses(base, i, rest);
    case Member(base, n) =>
      PostfixParses(base, [Period, Ident(n)] + rest);
      Cat3(Bare(base), [Period, Ident(n)], rest);
      Cat3([], [Period, Ident(n)], rest);
      MemberStep(Plain(base), n, [Period, Ident(n)] + rest);
    case Send(base, n, args) => SendParses(base, n, args, rest);
  }

  lemma ElementParses(base: Tree, i: Tree, rest: seq<Token>)
    requires Valid(Element(base, i))
    ensures Factor(Bare(Element(base, i)) + rest) == Designator(Plain(Element(base, i)), rest)
    decreases Element(base, i), 0
  {
    var more := [RBracket] + rest;
    var ts := [LBracket] + (Print(i, 0) + more);
    PostfixParses(base, ts);
    ElementTokens(Bare(base), Print(i, 0), rest);
    TreeParses(i, 0, more);
    assert ts[1..] == Print(i, 0) + more && more[1..] == rest;
    IndexStep(Plain(base), Plain(i), ts, more);
  }

  lemma ElementTokens(base: seq<Token>, i: seq<Token>, rest: seq<Token>)
    ensures base + [LBracket] + i + [RBracket] + rest == base + ([LBracket] + (i + ([RBracket] + rest)))
  {
  }

  lemma SendParses(base: Tree, n: string, args: seq<Tree>, rest: seq<Token>)
    requires Valid(Send(base, n, args))
    ensures Factor(Bare(Send(base, n, args)) + rest) == Designator(Plain(Send(base, n, args)), rest)
    decreases Send(base, n, args), 0
  {
    var inside := PrintArgs(args) + [RParen] + rest;
    var ts := [Period, Ident(n), LParen] + inside;
    PostfixParses(base, ts);
    SendTokens(Bare(base), n, PrintArgs(args), rest);
    ArgsParse(args, rest);
    assert ts[3..] == inside;
    SendStep(Plain(base), n, PlainAll(args), ts, rest);
  }

  lemma SendTokens(base: seq<Token>, n: string, args: seq<Token>, rest: seq<Token>)
    ensures base + [Period, Ident(n), LParen] + args + [RParen] + rest ==
            base + ([Period, Ident(n), LParen] + (args + [RParen] + rest))
  {
  }

  /** What parsing at level k makes of a tree printed for it, followed by rest. */
  function ParseAt(k: nat, ts: seq<Token>): Parsed<Tree> {
    if k == 0 then Expression(ts) else if k == 1 then Simple(ts) else if k == 2 then Term(ts) else Factor(ts)
  }

  /** At levels 1 and 2 the parser's loop goes on with the tree as its operand. */
  function GoOn(k: nat, t: Tree, rest: seq<Token>): Parsed<Tree> {
    if k == 1 then SimpleTail(t, rest) else if k == 2 then TermTail(t, rest) else Ok(t, rest)
  }

  /** The level after which a loop at level k does not go on. */
  function After(k: nat): nat { if k == 0 || k == 3 then k else k + 1 }

  lemma {:induction false} TreeParses(t: Tree, k: nat, rest: seq<Token>)
    requires Valid(t) && k <= 3 && Stops(rest, After(k))
    ensures ParseAt(k, Print(t, k) + rest) == GoOn(k, Plain(t), rest)
    decreases t, 3, if Level(t) >= k then Level(t) - k else Level(t) + 4 - k
  {
    if Level(t) == k {
      LevelParses(t, rest);
    } else if k == 3 {
      TreeParses(t, 0, [RParen] + rest);
      InParentheses(t, rest);
      assert Print(t, 0) == Bare(t);
    } else {
      TreeParses(t, k + 1, rest);
      OneLevelUp(t, k, rest);
    }
  }

  lemma InParentheses(t: Tree, rest: seq<Token>)
    requires Expression(Print(t, 0) + ([RParen] + rest)) == Ok(Plain(t), [RParen] + rest)
    ensures Factor([LParen] + Print(t, 0) + [RParen] + rest) == Ok(Plain(t), rest)
  {
    var ts := [LParen] + Print(t, 0) + [RParen] + rest;
    assert ts[1..] == Print(t, 0) + ([RParen] + rest);
    assert ([RParen] + rest)[1..] == rest;
  }

  lemma OneLevelUp(t: Tree, k: nat, rest: seq<Token>)
    requires Valid(t) && k < 3 && Level(t) != k && Stops(rest, After(k))
    requires ParseAt(k + 1, Print(t, k + 1) + rest) == GoOn(k + 1, Plain(t), rest)
    ensures ParseAt(k, Print(t, k) + rest) == GoOn(k, Plain(t), rest)
  {
    Begins(t, k + 1);
    assert Print(t, k) == Print(t, k + 1);
    assert k == 1 ==> !SeesSign(Print(t, 2) + rest);
  }

  /** Trees at their own level. */
  lemma {:induction false} LevelParses(t: Tree, rest: seq<Token>)
    requires Valid(t) && Stops(rest, After(Level(t)))
    ensures ParseAt(Level(t), Bare(t) + rest) == GoOn(Level(t), Plain(t), rest)
    decreases t, 2
  {
    var ts := Bare(t) + rest;
    match t
    case Signed(op, e) =>
      TreeParses(e, 2, rest);
      assert ts[1..] == Print(e, 2) + rest;
      SignStep(op, Plain(e), ts, rest);
    case Negated(e) =>
      TreeParses(e, 3, rest);
      assert ts[1..] == Print(e, 3) + rest;
      NotStep(Plain(e), ts, rest);
    case Is(l, ty) => IsParses(l, ty, rest);
    case Binary(op, l, r) => BinaryParses(t, rest);
    case Group(e) =>
      TreeParses(e, 0, [RParen] + rest);
      InParentheses(e, rest);
    case Num(_) => assert ts[1..] == rest;
    case RealNum(_) => assert ts[1..] == rest;
    case _ =>
      PostfixParses(t, rest);
      EndStep(Plain(t), rest);
  }

  lemma IsParses(l: Tree, ty: string, rest: seq<Token>)
    requires Valid(Is(l, ty)) && Stops(rest, 0)
    ensures Expression(Bare(Is(l, ty)) + rest) == Ok(Plain(Is(l, ty)), rest)
    decreases Is(l, ty), 1
  {
    var more := [IsTok, Ident(ty)] + rest;
    TreeParses(l, 1, more);
    Cat3(Print(l, 1), [IsTok, Ident(ty)], rest);
    assert more[2..] == rest;
    IsStep(Plain(l), ty, Bare(Is(l, ty)) + rest, more);
  }

  lemma SignStep(op: Operator, e: Tree, ts: seq<Token>, rest: seq<Token>)
    requires ts != [] && ts[0] == OpTok(op) && IsSign(op) && Term(ts[1..]) == TermTail(e, rest) && !SeesMulOp(rest)
    ensures Simple(ts) == SimpleTail(Signed(op, e), rest)
  {
  }

  lemma NotStep(e: Tree, ts: seq<Token>, rest: seq<Token>)
    requires Sees(ts, NotTok) && Factor(ts[1..]) == Ok(e, rest)
    ensures Factor(ts) == Ok(Negated(e), rest)
  {
  }

  lemma IsStep(l: Tree, ty: string, ts: seq<Token>, more: seq<Token>)
    requires Simple(ts) == SimpleTail(l, more) && |more| >= 2 && more[0] == IsTok && more[1] == Ident(ty)
    ensures Expression(ts) == Ok(Is(l, ty), more[2..])
  {
    assert SimpleTail(l, more) == Ok(l, more);
  }

  lemma EndStep(t: Tree, rest: seq<Token>)
    requires !Sees(rest, Period) && !Sees(rest, LBracket)
    ensures Designator(t, rest) == Ok(t, rest)
  {
  }

  lemma BinaryParses(t: Tree, rest: seq<Token>)
    requires Valid(t) && t.Binary? && Stops(rest, After(Level(t)))
    ensures ParseAt(Level(t), Bare(t) + rest) == GoOn(Level(t), Plain(t), rest)
    decreases t, 1
  {
    var k := Level(t);
    var lk, rk := if k == 2 then 2 else 1, k + 1;
    var right := Print(t.r, rk) + rest;
    var more := [OpTok(t.op)] + right;
    assert more[1..] == right;
    TreeParses(t.l, lk, more);
    TreeParses(t.r, rk, rest);
    BinaryTokens(Print(t.l, lk), t.op, Print(t.r, rk), rest);
    if k == 0 {
      RelationStep(Plain(t), Bare(t) + rest, more, rest);
    } else if k == 1 {
      AddStep(Plain(t), Bare(t) + rest, more, rest);
    } else {
      MulStep(Plain(t), Bare(t) + rest, more, rest);
    }
  }

  lemma BinaryTokens(l: seq<Token>, op: Operator, r: seq<Token>, rest: seq<Token>)
    ensures l + [OpTok(op)] + r + rest == l + ([OpTok(op)] + (r + rest))
  {
  }

  lemma RelationStep(t: Tree, ts: seq<Token>, more: seq<Token>, rest: seq<Token>)
    requires t.Binary? && IsRelation(t.op) && more != [] && more[0] == OpTok(t.op) &&
             Simple(ts) == SimpleTail(t.l, more)
    requires Simple(more[1..]) == SimpleTail(t.r, rest) && !SeesAddOp(rest)
    ensures Expression(ts) == Ok(t, rest)
  {
    assert SimpleTail(t.l, more) == Ok(t.l, more);
    assert SimpleTail(t.r, rest) == Ok(t.r, rest);
  }

  lemma AddStep(t: Tree, ts: seq<Token>, more: seq<Token>, rest: seq<Token>)
    requires t.Binary? && IsAddOp(t.op) && more != [] && more[0] == OpTok(t.op) && Simple(ts) == SimpleTail(t.l, more)
    requires Term(more[1..]) == TermTail(t.r, rest) && !SeesMulOp(rest)
    ensures Simple(ts) == SimpleTail(t, rest)
  {
    assert TermTail(t.r, rest) == Ok(t.r, rest);
  }

  lemma MulStep(t: Tree, ts: seq<Token>, more: seq<Token>, rest: seq<Token>)
    requires t.Binary? && IsMulOp(t.op) && more != [] && more[0] == OpTok(t.op) && Term(ts) == TermTail(t.l, more)
    requires Factor(more[1..]) == Ok(t.r, rest)
    ensures Term(ts) == TermTail(t, rest)
  {
  }

  // Argument lists.

  lemma {:induction false} ArgsParse(args: seq<Tree>, rest: seq<Token>)
    requires ValidAll(args)
    ensures Arguments(PrintArgs(args) + [RParen] + rest) == Ok(PlainAll(args), rest)
    decreases args, 5
  {
    var more := [RParen] + rest;
    assert PrintArgs(args) + [RParen] + rest == PrintArgs(args) + more;
    assert more[1..] == rest;
    if args != [] { ListParses(args, more); }
  }

  /** The arguments behind the first. */
  function PrintMore(args: seq<Tree>): seq<Token> { if args == [] then [] else [Comma] + PrintArgs(args) }

  lemma {:induction false} ListParses(args: seq<Tree>, rest: seq<Token>)
    requires ValidAll(args) && args != [] && Sees(rest, RParen)
    ensures ExpList(PrintArgs(args) + rest) == Ok(PlainAll(args), rest)
    ensures SeesExpression(PrintArgs(args) + rest)
    decreases args, 4
  {
    var more := PrintMore(args[1..]) + rest;
    FirstArg(args);
    Cat3(Print(args[0], 0), PrintMore(args[1..]), rest);
    Begins(args[0], 0);
    TreeParses(args[0], 0, more);
    ListTailParses([Plain(args[0])], args[1..], rest);
  }

  lemma {:induction false} ListTailParses(done: seq<Tree>, args: seq<Tree>, rest: seq<Token>)
    requires ValidAll(args) && Sees(rest, RParen)
    ensures ExpListTail(done, PrintMore(args) + rest) == Ok(done + PlainAll(args), rest)
    decreases args, 3
  {
    if args == [] {
      assert PrintMore(args) + rest == rest && done + PlainAll(args) == done;
    } else {
      var tail := PrintMore(args[1..]) + rest;
      var ts := PrintMore(args) + rest;
      CommaTokens(args, rest);
      TreeParses(args[0], 0, tail);
      var e := Plain(args[0]);
      ListTailParses(done + [e], args[1..], rest);
      Cat3(done, [e], PlainAll(args[1..]));
      CommaStep(done, e, ts, tail);
    }
  }

  lemma CommaTokens(args: seq<Tree>, rest: seq<Token>)
    requires args != []
    ensures var ts := PrintMore(args) + rest;
            Sees(ts, Comma) && ts[1..] == Print(args[0], 0) + (PrintMore(args[1..]) + rest)
  {
    var x, y := Print(args[0], 0), PrintMore(args[1..]);
    FirstArg(args);
    assert PrintMore(args) == [Comma] + (x + y);
    Cat3([Comma], x + y, rest);
    Cat3(x, y, rest);
  }

  lemma FirstArg(args: seq<Tree>)
    requires args != []
    ensures PrintArgs(args) == Print(args[0], 0) + PrintMore(args[1..])
  {
  }

  lemma CommaStep(done: seq<Tree>, e: Tree, ts: seq<Token>, tail: seq<Token>)
    requires Sees(ts, Comma) && Expression(ts[1..]) == Ok(e, tail)
    ensures ExpListTail(done, ts) == ExpListTail(done + [e], tail)
  {
  }

  /** Printing an expression and parsing it gives the expression back and leaves
      exactly what follows. */
  lemma ExpressionRoundTrip(t: Tree, rest: seq<Token>)
    requires Valid(t) && Stops(rest, 0)
    ensures Expression(Print(t, 0) + rest) == Ok(Plain(t), rest)
  {
    TreeParses(t, 0, rest);
  }

  // ----- statements -----

  /** A designator that starts with a name. */
  predicate IsNamed(t: Tree)
    decreases t
  {
    match t
    case Name(_) => true
    case Element(base, _) => IsNamed(base)
    case Member(base, _) => IsNamed(base)
    case Send(base, _, _) => IsNamed(base)
    case _ => false
  }

  predicate ValidStmt(st: STree)
    decreases st, 0
  {
    match st
    case AssignTo(target, e) => IsNamed(target) && Valid(target) && Valid(e)
    case CallProc(_, args) => ValidAll(args)
    case CallMethod(call) => call.Send? && IsNamed(call) && Valid(call)
    case IfThen(c, thn, els) => Valid(c) && ValidStmts(thn) && ValidStmts(els)
    case WhileDo(c, body) => Valid(c) && ValidStmts(body)
    case ReturnWith(e) => e.Some? ==> Valid(e.value)
    case Nothing => true
    case Mention(target) => IsNamed(target) && Valid(target) && !target.Send?
  }

  predicate ValidStmts(ss: seq<STree>)
    decreases ss, 1
  {
    ss == [] || (ValidStmt(ss[0]) && ValidStmts(ss[1..]))
  }

  /** What is written, without what leaves no trace. */
  function PlainStmt(st: STree): seq<STree>
    decreases st, 0
  {
    match st
    case AssignTo(target, e) => [AssignTo(Plain(target), Plain(e))]
    case CallProc(n, args) => [CallProc(n, PlainAll(args))]
    case CallMethod(call) => [CallMethod(Plain(call))]
    case IfThen(c, thn, els) => [IfThen(Plain(c), PlainStmts(thn), PlainStmts(els))]
    case WhileDo(c, body) => [WhileDo(Plain(c), PlainStmts(body))]
    case ReturnWith(e) => [ReturnWith(if e.Some? then Source.Some(Plain(e.value)) else Source.None)]
    case Nothing => []
    case Mention(_) => []
  }

  function PlainStmts(ss: seq<STree>): seq<STree>
    decreases ss, 1
  {
    if ss == [] then [] else PlainStmt(ss[0]) + PlainStmts(ss[1..])
  }

  function PrintStmt(st: STree): seq<Token>
    decreases st, 0
  {
    match st
    case AssignTo(target, e) => Bare(target) + [ColonEqual] + Print(e, 0)
    case CallProc(n, args) => [Ident(n), LParen] + PrintArgs(args) + [RParen]
    case CallMethod(call) => Bare(call)
    case IfThen(c, thn, els) =>
      [IfTok] + Print(c, 0) + [ThenTok] + PrintStmts(thn) + (if els == [] then [] else [ElseTok] + PrintStmts(els)) +
        [EndTok]
    case WhileDo(c, body) => [WhileTok] + Print(c, 0) + [DoTok] + PrintStmts(body) + [EndTok]
    case ReturnWith(e) => [ReturnTok] + if e.Some? then Print(e.value, 0) else []
    case Nothing => []
    case Mention(target) => Bare(target)
  }

  /** Semicolons between statements, none behind the last. */
  function PrintStmts(ss: seq<STree>): seq<Token>
    decreases ss, 1
  {
    if ss == [] then []
    else if |ss| == 1 then PrintStmt(ss[0])
    else PrintStmt(ss[0]) + [Semi] + PrintStmts(ss[1..])
  }

  lemma {:induction false} NamedBegins(t: Tree, rest: seq<Token>)
    requires IsNamed(t) && !Sees(rest, LParen)
    ensures var ts := Bare(t) + rest; ts[0].Ident? && !Sees(ts[1..], LParen)
    decreases t
  {
    match t
    case Name(n) => assert (Bare(t) + rest)[1..] == rest;
    case Element(base, i) =>
      ElementTokens(Bare(base), Print(i, 0), rest);
      NamedBegins(base, [LBracket] + (Print(i, 0) + ([RBracket] + rest)));
    case Member(base, n) =>
      Cat3(Bare(base), [Period, Ident(n)], rest);
      NamedBegins(base, [Period, Ident(n)] + rest);
    case Send(base, n, args) =>
      SendTokens(Bare(base), n, PrintArgs(args), rest);
      NamedBegins(base, [Period, Ident(n), LParen] + (PrintArgs(args) + [RParen] + rest));
  }

  /** A designator at the start of a statement: a name, then selectors. */
  lemma NamedParses(t: Tree, rest: seq<Token>)
    requires Valid(t) && IsNamed(t) && !Sees(rest, LParen) && !Sees(rest, Period) && !Sees(rest, LBracket)
    ensures var ts := Bare(t) + rest;
            && ts[0].Ident? && !Sees(ts[1..], LParen) && Designator(Name(ts[0].name), ts[1..]) == Ok(Plain(t), rest)
  {
    NamedBegins(t, rest);
    PostfixParses(t, rest);
    EndStep(Plain(t), rest);
    var ts := Bare(t) + rest;
    NameStep(ts[0].name, ts);
  }

  lemma {:induction false} StmtParses(ss: seq<STree>, st: STree, rest: seq<Token>)
    requires ValidStmt(st) && (Sees(rest, Semi) || SeesEnd(rest))
    ensures Statement(ss, PrintStmt(st) + rest) == Ok(ss + PlainStmt(st), rest)
    decreases st, 3
  {
    match st
    case AssignTo(target, e) => AssignParses(ss, target, e, rest);
    case CallProc(n, args) => CallParses(ss, n, args, rest);
    case CallMethod(call) =>
      NamedParses(call, rest);
      MethodStep(ss, Plain(call), Bare(call) + rest, rest);
    case IfThen(c, thn, els) => IfParses(ss, c, thn, els, rest);
    case WhileDo(c, body) => WhileParses(ss, c, body, rest);
    case ReturnWith(e) => ReturnParses(ss, e, rest);
    case Nothing => assert PrintStmt(st) + rest == rest && ss + [] == ss;
    case Mention(target) =>
      NamedParses(target, rest);
      MentionStep(ss, Plain(target), Bare(target) + rest, rest);
      assert ss + [] == ss;
  }

  lemma MentionStep(ss: seq<STree>, target: Tree, ts: seq<Token>, rest: seq<Token>)
    requires ts != [] && ts[0].Ident? && !Sees(ts[1..], LParen) &&
             Designator(Name(ts[0].name), ts[1..]) == Ok(target, rest)
    requires !target.Send? && !Sees(rest, ColonEqual)
    ensures Statement(ss, ts) == Ok(ss, rest)
  {
  }

  lemma AssignParses(ss: seq<STree>, target: Tree, e: Tree, rest: seq<Token>)
    requires ValidStmt(AssignTo(target, e)) && (Sees(rest, Semi) || SeesEnd(rest))
    ensures Statement(ss, PrintStmt(AssignTo(target, e)) + rest) == Ok(ss + PlainStmt(AssignTo(target, e)), rest)
  {
    var more := [ColonEqual] + (Print(e, 0) + rest);
    AssignTokens(Bare(target), Print(e, 0), rest);
    NamedParses(target, more);
    assert more[1..] == Print(e, 0) + rest;
    ExpressionRoundTrip(e, rest);
    AssignStep(ss, Plain(target), Plain(e), Bare(target) + more, more, rest);
  }

  lemma CallParses(ss: seq<STree>, n: string, args: seq<Tree>, rest: seq<Token>)
    requires ValidAll(args)
    ensures Statement(ss, PrintStmt(CallProc(n, args)) + rest) == Ok(ss + PlainStmt(CallProc(n, args)), rest)
  {
    var inside := PrintArgs(args) + [RParen];
    Cat3([Ident(n), LParen], inside, rest);
    ArgsParse(args, rest);
    assert PrintStmt(CallProc(n, args)) == [Ident(n), LParen] + inside;
    CallStep(ss, n, PlainAll(args), [Ident(n), LParen] + inside + rest, rest);
  }

  lemma ReturnParses(ss: seq<STree>, e: Source.Option<Tree>, rest: seq<Token>)
    requires ValidStmt(ReturnWith(e)) && (Sees(rest, Semi) || SeesEnd(rest))
    ensures Statement(ss, PrintStmt(ReturnWith(e)) + rest) == Ok(ss + PlainStmt(ReturnWith(e)), rest)
  {
    var ts := PrintStmt(ReturnWith(e)) + rest;
    if e.Some? {
      Cat3([ReturnTok], Print(e.value, 0), rest);
      Begins(e.value, 0);
      ExpressionRoundTrip(e.value, rest);
      ReturnStep(ss, Plain(e.value), ts, rest);
    } else {
      assert ts == [ReturnTok] + rest && ts[1..] == rest;
    }
  }

  lemma AssignTokens(target: seq<Token>, e: seq<Token>, rest: seq<Token>)
    ensures target + [ColonEqual] + e + rest == target + ([ColonEqual] + (e + rest))
  {
  }

  lemma AssignStep(ss: seq<STree>, target: Tree, e: Tree, ts: seq<Token>, more: seq<Token>, rest: seq<Token>)
    requires ts != [] && ts[0].Ident? && !Sees(ts[1..], LParen) &&
             Designator(Name(ts[0].name), ts[1..]) == Ok(target, more)
    requires Sees(more, ColonEqual) && Expression(more[1..]) == Ok(e, rest)
    ensures Statement(ss, ts) == Ok(ss + [AssignTo(target, e)], rest)
  {
  }

  lemma CallStep(ss: seq<STree>, n: string, args: seq<Tree>, ts: seq<Token>, rest: seq<Token>)
    requires |ts| >= 2 && ts[0] == Ident(n) && ts[1] == LParen && Arguments(ts[2..]) == Ok(args, rest)
    ensures Statement(ss, ts) == Ok(ss + [CallProc(n, args)], rest)
  {
    assert ts[1..][0] == LParen;
  }

  lemma MethodStep(ss: seq<STree>, call: Tree, ts: seq<Token>, rest: seq<Token>)
    requires ts != [] && ts[0].Ident? && !Sees(ts[1..], LParen) &&
             Designator(Name(ts[0].name), ts[1..]) == Ok(call, rest)
    requires call.Send? && !Sees(rest, ColonEqual)
    ensures Statement(ss, ts) == Ok(ss + [CallMethod(call)], rest)
  {
  }

  lemma ReturnStep(ss: seq<STree>, e: Tree, ts: seq<Token>, rest: seq<Token>)
    requires Sees(ts, ReturnTok) && SeesExpression(ts[1..]) && Expression(ts[1..]) == Ok(e, rest)
    ensures Statement(ss, ts) == Ok(ss + [ReturnWith(Source.Some(e))], rest)
  {
  }

  lemma IfParses(ss: seq<STree>, c: Tree, thn: seq<STree>, els: seq<STree>, rest: seq<Token>)
    requires ValidStmt(IfThen(c, thn, els))
    ensures Statement(ss, PrintStmt(IfThen(c, thn, els)) + rest) == Ok(ss + PlainStmt(IfThen(c, thn, els)), rest)
    decreases IfThen(c, thn, els), 2
  {
    var end := [EndTok] + rest;
    var tail := if els == [] then end else [ElseTok] + (PrintStmts(els) + end);
    var arm := PrintStmts(thn) + tail;
    var body := [ThenTok] + arm;
    var ts := [IfTok] + (Print(c, 0) + body);
    IfTokens(Print(c, 0), PrintStmts(thn), PrintStmts(els), els == [], rest);
    assert ts[1..] == Print(c, 0) + body && body[1..] == arm && end[1..] == rest;
    ExpressionRoundTrip(c, body);
    StmtsParse(thn, tail);
    assert SequenceTail(PlainStmts(thn), tail) == Ok(PlainStmts(thn), tail);
    if els != [] {
      assert tail[1..] == PrintStmts(els) + end;
      StmtsParse(els, end);
      assert SequenceTail(PlainStmts(els), end) == Ok(PlainStmts(els), end);
    }
    IfStep(ss, Plain(c), PlainStmts(thn), PlainStmts(els), els == [], ts, body, tail, end);
  }

  lemma IfTokens(c: seq<Token>, thn: seq<Token>, els: seq<Token>, noElse: bool, rest: seq<Token>)
    ensures [IfTok] + c + [ThenTok] + thn + (if noElse then [] else [ElseTok] + els) + [EndTok] + rest
            == [IfTok] + (c + ([ThenTok] +
                               (thn + if noElse then [EndTok] + rest else [ElseTok] + (els + ([EndTok] + rest)))))
  {
  }

  lemma IfStep(ss: seq<STree>, c: Tree, thn: seq<STree>, els: seq<STree>, noElse: bool, ts: seq<Token>,
               body: seq<Token>, tail: seq<Token>, end: seq<Token>)
    requires Sees(ts, IfTok) && Expression(ts[1..]) == Ok(c, body) && Sees(body, ThenTok)
    requires Sequence(body[1..]) == Ok(thn, tail) && Sees(end, EndTok)
    requires if noElse then els == [] && tail == end else Sees(tail, ElseTok) && Sequence(tail[1..]) == Ok(els, end)
    ensures Statement(ss, ts) == Ok(ss + [IfThen(c, thn, els)], end[1..])
  {
  }

  lemma WhileParses(ss: seq<STree>, c: Tree, body: seq<STree>, rest: seq<Token>)
    requires ValidStmt(WhileDo(c, body))
    ensures Statement(ss, PrintStmt(WhileDo(c, body)) + rest) == Ok(ss + PlainStmt(WhileDo(c, body)), rest)
    decreases WhileDo(c, body), 2
  {
    var end := [EndTok] + rest;
    var loop := [DoTok] + (PrintStmts(body) + end);
    var ts := [WhileTok] + (Print(c, 0) + loop);
    WhileTokens(Print(c, 0), PrintStmts(body), rest);
    assert ts[1..] == Print(c, 0) + loop && loop[1..] == PrintStmts(body) + end && end[1..] == rest;
    ExpressionRoundTrip(c, loop);
    StmtsParse(body, end);
    assert SequenceTail(PlainStmts(body), end) == Ok(PlainStmts(body), end);
    WhileStep(ss, Plain(c), PlainStmts(body), ts, loop, end);
  }

  lemma WhileTokens(c: seq<Token>, body: seq<Token>, rest: seq<Token>)
    ensures [WhileTok] + c + [DoTok] + body + [EndTok] + rest ==
            [WhileTok] + (c + ([DoTok] + (body + ([EndTok] + rest))))
  {
  }

  lemma WhileStep(ss: seq<STree>, c: Tree, body: seq<STree>, ts: seq<Token>, loop: seq<Token>, end: seq<Token>)
    requires Sees(ts, WhileTok) && Expression(ts[1..]) == Ok(c, loop) && Sees(loop, DoTok)
    requires Sequence(loop[1..]) == Ok(body, end) && Sees(end, EndTok)
    ensures Statement(ss, ts) == Ok(ss + [WhileDo(c, body)], end[1..])
  {
    assert ts[0] == WhileTok;
    var (e, r) := (Expression(ts[1..]), Sequence(loop[1..]));
    assert e.v == c && e.rest == loop && r.v == body && r.rest == end;
  }

  /** The statements behind the first. */
  function PrintRest(ss: seq<STree>): seq<Token> { if ss == [] then [] else [Semi] + PrintStmts(ss) }

  lemma {:induction false} StmtsParse(ss: seq<STree>, rest: seq<Token>)
    requires ValidStmts(ss) && (Sees(rest, Semi) || SeesEnd(rest))
    ensures Sequence(PrintStmts(ss) + rest) == SequenceTail(PlainStmts(ss), rest)
    decreases ss, 5
  {
    if ss == [] {
      assert PrintStmts(ss) + rest == rest;
    } else {
      var more := PrintRest(ss[1..]) + rest;
      FirstTokens(ss, rest);
      RestBegins(ss[1..], rest);
      StmtParses([], ss[0], more);
      assert [] + PlainStmt(ss[0]) == PlainStmt(ss[0]);
      StmtsTailParse(PlainStmt(ss[0]), ss[1..], rest);
    }
  }

  lemma FirstTokens(ss: seq<STree>, rest: seq<Token>)
    requires ss != []
    ensures PrintStmts(ss) + rest == PrintStmt(ss[0]) + (PrintRest(ss[1..]) + rest)
  {
  }

  lemma RestTokens(ss: seq<STree>, rest: seq<Token>)
    requires ss != []
    ensures var ts := PrintRest(ss) + rest; Sees(ts, Semi) && ts[1..] == PrintStmt(ss[0]) + (PrintRest(ss[1..]) + rest)
  {
    FirstTokens(ss, rest);
    Cat3([Semi], PrintStmts(ss), rest);
  }

  lemma RestBegins(ss: seq<STree>, rest: seq<Token>)
    requires Sees(rest, Semi) || SeesEnd(rest)
    ensures var more := PrintRest(ss) + rest; Sees(more, Semi) || SeesEnd(more)
  {
    if ss == [] { assert PrintRest(ss) + rest == rest; }
  }

  lemma {:induction false} StmtsTailParse(done: seq<STree>, ss: seq<STree>, rest: seq<Token>)
    requires ValidStmts(ss) && (Sees(rest, Semi) || SeesEnd(rest))
    ensures SequenceTail(done, PrintRest(ss) + rest) == SequenceTail(done + PlainStmts(ss), rest)
    decreases ss, 4
  {
    if ss == [] {
      assert PrintRest(ss) + rest == rest && done + PlainStmts(ss) == done;
    } else {
      NextStmt(done, ss, rest);
      StmtsTailParse(done + PlainStmt(ss[0]), ss[1..], rest);
      assert done + PlainStmt(ss[0]) + PlainStmts(ss[1..]) == done + PlainStmts(ss);
    }
  }

  lemma NextStmt(done: seq<STree>, ss: seq<STree>, rest: seq<Token>)
    requires ss != [] && ValidStmts(ss) && (Sees(rest, Semi) || SeesEnd(rest))
    ensures SequenceTail(done, PrintRest(ss) + rest) == SequenceTail(done + PlainStmt(ss[0]), PrintRest(ss[1..]) + rest)
    decreases ss, 3
  {
    var more := PrintRest(ss[1..]) + rest;
    RestTokens(ss, rest);
    RestBegins(ss[1..], rest);
    StmtParses(done, ss[0], more);
    SemiStep(done, done + PlainStmt(ss[0]), PrintRest(ss) + rest, more);
  }

  lemma SemiStep(done: seq<STree>, done1: seq<STree>, ts: seq<Token>, more: seq<Token>)
    requires Sees(ts, Semi) && Statement(done, ts[1..]) == Ok(done1, more)
    ensures SequenceTail(done, ts) == SequenceTail(done1, more)
  {
  }

  /** Printing statements and parsing them gives them back and leaves exactly what
      follows, whether or not a semicolon follows the last. */
  lemma StatementsRoundTrip(ss: seq<STree>, rest: seq<Token>)
    requires ValidStmts(ss) && SeesEnd(rest)
    ensures Sequence(PrintStmts(ss) + rest) == Ok(PlainStmts(ss), rest)
    ensures Sequence(PrintStmts(ss) + ([Semi] + rest)) == Ok(PlainStmts(ss), rest)
  {
    StmtsParse(ss, rest);
    StmtsParse(ss, [Semi] + rest);
    assert ([Semi] + rest)[1..] == rest;
    SemiStep(PlainStmts(ss), PlainStmts(ss), [Semi] + rest, rest);
  }
}
